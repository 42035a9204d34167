/**
 * KEY_PATTERN, matched at the start of a line: a single-quoted run of
 * decimal digits (the id), optional white space, a colon, optional white
 * space, and a non-empty rest (the value) reaching the end of the line.
 * The lines it is applied to contain no newline, so `.` accepts every
 * character of the value and `$` is the end of the line.
 */
module KeyPattern {
  import opened Wrappers
  import opened PyText

  datatype KeyMatch = KeyMatch(id: string, value: string)

  /** KEY_PATTERN.match: the `id` and `value` groups, or `None`. */
  function MatchKey(s: string): (m: Option<KeyMatch>)
    requires '\n' !in s
  {
    match QuotedId(s)
    case None => None
    case Some((id, t)) => MatchKeyValue(id, t)
  }

  /** The start of KEY_PATTERN, `'(\d+)'`: the id and the text after its closing quote. */
  function QuotedId(s: string): (r: Option<(string, string)>)
    ensures r.Some? ==> IsNumeral(r.value.0) && s == "'" + r.value.0 + "'" + r.value.1
  {
    if s == [] || s[0] != '\'' then None
    else
      var d := CountLeading(s[1..], IsDigit);
      if d == 0 || d + 1 == |s| || s[d + 1] != '\'' then None
      else
        SplitKey(s, d);
        Some((s[1..d + 1], s[d + 2..]))
  }

  /** The rest of KEY_PATTERN after the id: `\s*:\s*(.+)$`. The greedy `\s*`
      takes all white space after the colon unless that leaves nothing for
      `.+`, in which case it gives back the last character. */
  function MatchKeyValue(id: string, t: string): (m: Option<KeyMatch>)
  {
    var colon := LStrip(t);
    if colon == [] || colon[0] != ':' then None
    else
      var r := colon[1..];
      if r == [] then None
      else Some(KeyMatch(id, ValueGroup(r)))
  }

  /** `\s*(.+)$` on the text after the colon: the greedy `\s*` takes all
      leading white space unless that leaves nothing for `.+`, in which case
      it gives back the last character. */
  function ValueGroup(r: string): (v: string)
    requires r != []
  {
    var v := LStrip(r);
    if v != [] then v else r[|r| - 1..]
  }

  /** The value group is what is left after some white space, is not empty,
      and starts with a non-space character unless it is one character long. */
  lemma ValueGroupSplit(r: string) returns (ws2: string)
    requires r != []
    ensures AllSpace(ws2) && r == ws2 + ValueGroup(r)
    ensures ValueGroup(r) != [] && (|ValueGroup(r)| == 1 || !IsSpace(ValueGroup(r)[0]))
  {
    var v := LStrip(r);
    LStripSplit(r);
    if v != [] {
      ws2 := r[..|r| - |v|];
    } else {
      ws2 := r[..|r| - 1];
      assert r == ws2 + r[|r| - 1..];
    }
  }

  /** White space, then the colon, then the rest. */
  lemma ColonSplit(t: string) returns (ws1: string)
    requires LStrip(t) != [] && LStrip(t)[0] == ':'
    ensures AllSpace(ws1) && t == ws1 + ":" + LStrip(t)[1..]
  {
    var colon := LStrip(t);
    LStripSplit(t);
    ws1 := t[..|t| - |colon|];
    assert colon == [colon[0]] + colon[1..];
  }

  /** The text of a key line: `'id'`, white space, colon, white space, value. */
  function KeyLine(id: string, ws1: string, ws2: string, value: string): string {
    "'" + id + "'" + ws1 + ":" + ws2 + value
  }

  /** The quoted id: a key line is matched as its part after the id. */
  lemma MatchKeyId(id: string, t: string)
    requires IsNumeral(id) && '\n' !in "'" + id + "'" + t
    ensures MatchKey("'" + id + "'" + t) == MatchKeyValue(id, t)
  {
    var s := "'" + id + "'" + t;
    assert s[1..] == id + ("'" + t);
    CountLeadingExact(s[1..], IsDigit, |id|);
    assert s[1..|id| + 1] == id;
    assert s[|id| + 2..] == t;
    assert QuotedId(s) == Some((id, t));
  }

  lemma SplitKey(s: string, d: nat)
    requires d + 1 < |s| && s[0] == '\'' && s[d + 1] == '\''
    ensures s == "'" + s[1..d + 1] + "'" + s[d + 2..]
  {
    assert s == [s[0]] + s[1..d + 1] + [s[d + 1]] + s[d + 2..];
  }

  lemma MatchKeyValueSound(id: string, t: string) returns (ws1: string, ws2: string)
    requires MatchKeyValue(id, t).Some?
    ensures var m := MatchKeyValue(id, t).value;
      m.id == id && m.value != [] && (|m.value| == 1 || !IsSpace(m.value[0]))
    ensures AllSpace(ws1) && AllSpace(ws2)
    ensures t == ws1 + ":" + ws2 + MatchKeyValue(id, t).value.value
  {
    var r := LStrip(t)[1..];
    ws1 := ColonSplit(t);
    ws2 := ValueGroupSplit(r);
    JoinValue(t, ws1, r, ws2, ValueGroup(r));
  }

  lemma JoinValue(t: string, ws1: string, r: string, ws2: string, v: string)
    requires t == ws1 + ":" + r && r == ws2 + v
    ensures t == ws1 + ":" + ws2 + v
  {
  }

  /** Every match has the shape KEY_PATTERN describes; the id is a numeral,
      the value is not empty and starts with a non-space character unless it
      is a single character. */
  lemma MatchKeySound(s: string) returns (ws1: string, ws2: string)
    requires '\n' !in s && MatchKey(s).Some?
    ensures var m := MatchKey(s).value;
      IsNumeral(m.id) && m.value != [] && (|m.value| == 1 || !IsSpace(m.value[0]))
    ensures AllSpace(ws1) && AllSpace(ws2)
    ensures s == KeyLine(MatchKey(s).value.id, ws1, ws2, MatchKey(s).value.value)
  {
    var q := QuotedId(s).value;
    assert MatchKey(s) == MatchKeyValue(q.0, q.1);
    ws1, ws2 := MatchKeyValueSound(q.0, q.1);
    JoinKeyLine(s, q.0, q.1, ws1, ws2, MatchKeyValue(q.0, q.1).value.value);
  }

  lemma JoinKeyLine(s: string, id: string, t: string, ws1: string, ws2: string, v: string)
    requires s == "'" + id + "'" + t && t == ws1 + ":" + ws2 + v
    ensures s == KeyLine(id, ws1, ws2, v)
  {
  }

  /** What follows the leading white space decides the match. */
  lemma MatchKeyValueAfter(id: string, t: string, r: string)
    requires LStrip(t) == ":" + r && r != []
    ensures MatchKeyValue(id, t) == Some(KeyMatch(id, ValueGroup(r)))
  {
    assert LStrip(t)[1..] == r;
  }

  lemma LStripToColon(ws1: string, r: string)
    requires AllSpace(ws1)
    ensures LStrip(ws1 + ":" + r) == ":" + r
  {
    assert ws1 + ":" + r == ws1 + (":" + r);
    LStripExact(ws1, ":" + r);
  }

  lemma MatchKeyValueComplete(id: string, ws1: string, ws2: string, value: string)
    requires AllSpace(ws1) && AllSpace(ws2) && value != [] && !IsSpace(value[0])
    ensures MatchKeyValue(id, ws1 + ":" + ws2 + value) == Some(KeyMatch(id, value))
  {
    assert ws1 + ":" + ws2 + value == ws1 + ":" + (ws2 + value);
    LStripToColon(ws1, ws2 + value);
    LStripExact(ws2, value);
    MatchKeyValueAfter(id, ws1 + ":" + ws2 + value, ws2 + value);
  }

  /** A key line whose value starts with a non-space character is matched,
      with its id and its value. */
  lemma MatchKeyComplete(id: string, ws1: string, ws2: string, value: string)
    requires IsNumeral(id) && AllSpace(ws1) && AllSpace(ws2)
    requires value != [] && !IsSpace(value[0])
    requires '\n' !in KeyLine(id, ws1, ws2, value)
    ensures MatchKey(KeyLine(id, ws1, ws2, value)) == Some(KeyMatch(id, value))
  {
    var t := ws1 + ":" + ws2 + value;
    assert KeyLine(id, ws1, ws2, value) == "'" + id + "'" + t;
    MatchKeyId(id, t);
    MatchKeyValueComplete(id, ws1, ws2, value);
  }

  lemma MatchKeyValueBlank(id: string, ws1: string, ws2: string)
    requires AllSpace(ws1) && AllSpace(ws2) && ws2 != []
    ensures MatchKeyValue(id, ws1 + ":" + ws2) == Some(KeyMatch(id, ws2[|ws2| - 1..]))
  {
    LStripToColon(ws1, ws2);
    LStripAllSpace(ws2);
    MatchKeyValueAfter(id, ws1 + ":" + ws2, ws2);
  }

  /** A key line whose value is white space only is still matched: `.+`
      takes the last white space character. */
  lemma MatchKeyBlankValue(id: string, ws1: string, ws2: string)
    requires IsNumeral(id) && AllSpace(ws1) && AllSpace(ws2) && ws2 != []
    requires '\n' !in KeyLine(id, ws1, "", ws2)
    ensures MatchKey(KeyLine(id, ws1, "", ws2)) == Some(KeyMatch(id, ws2[|ws2| - 1..]))
  {
    var t := ws1 + ":" + ws2;
    assert KeyLine(id, ws1, "", ws2) == "'" + id + "'" + t;
    MatchKeyId(id, t);
    MatchKeyValueBlank(id, ws1, ws2);
  }

  /** A line that does not open with a quote is never a key line. */
  lemma MatchKeyNeedsQuote(s: string)
    requires '\n' !in s && (s == [] || s[0] != '\'')
    ensures MatchKey(s).None?
  {
  }
}
