/**
 * `parse_typescript_map`: the line-by-line reading of the object literal
 * that maps each numeric id to its list of `[code, name]` pairs.
 *
 * The parser is a two-state machine. Outside a block (`current_id is None`)
 * it looks for key lines; a key line whose value is a complete list is
 * stored at once, any other key line opens a block for its id. Inside a
 * block every line adds the pairs it holds to the block's buffer, until a
 * line starting with `]` stores the buffer under the block's id.
 *
 * `Step` is one turn of the loop, `Run` the loop over a sequence of lines,
 * `Finish` the flush after it, and `ParseMap` the whole function on the
 * text of the file. `ParseTypeScriptMap` is the loop itself, proved to
 * compute `ParseMap`.
 */
module MapParser {
  import opened Wrappers
  import opened PyText
  import opened PyDict
  import opened BlockComments
  import opened KeyPattern
  import opened FormPattern
  import opened SeqFacts

  type Entries = Dict<seq<Form>>

  /** The loop's variables: `entries`, `current_id` and `current_forms`. */
  datatype State = State(entries: Entries, current: Option<string>, buffer: seq<Form>)

  /** Their values before the first line. */
  function Init(): (st: State)
    ensures Inv(st) && st.entries.keys == [] && st.current.None?
  {
    State(Empty(), None, [])
  }

  /** What holds of the loop's variables between two lines: every id stored
      or being collected is a numeral, and outside a block the buffer is
      empty. */
  ghost predicate Inv(st: State) {
    && st.entries.Valid()
    && (forall k :: k in st.entries.values ==> IsNumeral(k))
    && (st.current.Some? ==> IsNumeral(st.current.value))
    && (st.current.None? ==> st.buffer == [])
  }

  /** A stripped line that is ignored in both states: blank, a line comment,
      or the `export` line that opens the literal. */
  predicate Skipped(line: string)
    ensures Skipped(line) ==> line == [] || line[0] == '/' || line[0] == 'e'
  {
    line == [] || StartsWith(line, "//") || StartsWith(line, "export")
  }

  /** A value that holds a whole list: it starts with `[`, ends with `]` and
      has as many of one as of the other. */
  predicate Complete(rest: string)
    ensures Complete(rest) ==> 2 <= |rest| && rest[0] == '[' && rest[|rest| - 1] == ']'
  {
    StartsWith(rest, "[") && EndsWith(rest, "]") && multiset(rest)['['] == multiset(rest)[']']
  }

  /** The value of a key line with trailing commas and surrounding white
      space removed. */
  function Rest(m: KeyMatch): (r: string)
    ensures |r| <= |m.value|
    ensures r == [] || (!IsSpace(r[0]) && !IsSpace(r[|r| - 1]))
  {
    Strip(RStripChar(m.value, ','))
  }

  lemma NoNewlineInPrefix(s: string, n: nat)
    requires '\n' !in s && n <= |s|
    ensures '\n' !in s[..n]
  {
    assert forall x :: x in s[..n] ==> x in s;
  }

  /** The stripped line, without its trailing commas, as given to KEY_PATTERN. */
  function KeyText(line: string): (t: string)
    requires '\n' !in line
    ensures '\n' !in t
  {
    var t := RStripChar(line, ',');
    NoNewlineInPrefix(line, |t|);
    t
  }

  lemma NoNewlineStripped(raw: string)
    requires '\n' !in raw
    ensures '\n' !in Strip(raw)
  {
    assert multiset(raw)['\n'] == 0;
  }

  /** One turn of the loop on the line `raw`. */
  function Step(st: State, raw: string): (r: State)
    requires st.entries.Valid() && '\n' !in raw
    ensures r.entries.Valid()
  {
    var line := Strip(raw);
    NoNewlineStripped(raw);
    if Skipped(line) then st
    else if st.current.None? then
      match MatchKey(KeyText(line))
      case None => st
      case Some(m) =>
        var rest := Rest(m);
        if Complete(rest) then State(Put(st.entries, m.id, Forms(rest)), None, st.buffer)
        else State(st.entries, Some(m.id), if rest != [] && rest != "[" then [] + Forms(rest) else [])
    else if StartsWith(line, "]") then State(Put(st.entries, st.current.value, st.buffer), None, [])
    else State(st.entries, st.current, st.buffer + Forms(line))
  }

  predicate NoNewlines(lines: seq<string>) {
    forall i :: 0 <= i < |lines| ==> '\n' !in lines[i]
  }

  /** The loop over `lines`, from the state `st`. */
  function Run(st: State, lines: seq<string>): (r: State)
    requires st.entries.Valid() && NoNewlines(lines)
    ensures r.entries.Valid()
    decreases |lines|
  {
    if lines == [] then st
    else Step(Run(st, lines[..|lines| - 1]), lines[|lines| - 1])
  }

  /** After the loop: a block still open is stored as it stands. */
  function Finish(st: State): (d: Entries)
    requires st.entries.Valid()
    ensures d.Valid()
    ensures st.current.None? ==> d == st.entries
    ensures st.current.Some? ==> st.current.value in d.values && d.values[st.current.value] == st.buffer
  {
    if st.current.Some? then Put(st.entries, st.current.value, st.buffer) else st.entries
  }

  /** The dictionary built from the lines of the file. */
  function ParseLines(lines: seq<string>): (d: Entries)
    requires NoNewlines(lines)
    ensures d.Valid()
  {
    Finish(Run(Init(), lines))
  }

  lemma NoNewlineInLines(s: string)
    ensures NoNewlines(SplitLines(s))
  {
    var lines := SplitLines(s);
    forall i | 0 <= i < |lines| ensures '\n' !in lines[i] {
      assert NoLineBreak(lines[i]);
      assert IsLineBreak('\n');
    }
  }

  /** `parse_typescript_map` on the text of the file: block comments are
      removed first, then the text is cut into lines. */
  function ParseMap(raw: string): (d: Entries)
    ensures d.Valid()
  {
    var lines := SplitLines(StripComments(raw));
    NoNewlineInLines(StripComments(raw));
    ParseLines(lines)
  }

  /** The loop of `parse_typescript_map`, updating its three variables line
      by line. */
  method ParseTypeScriptMap(raw: string) returns (entries: Entries)
    ensures entries == ParseMap(raw)
  {
    var text := StripComments(raw);
    var lines := SplitLines(text);
    NoNewlineInLines(text);
    entries := Empty();
    var currentId: Option<string> := None;
    var currentForms: seq<Form> := [];
    var i := 0;
    while i < |lines|
      invariant 0 <= i <= |lines|
      invariant State(entries, currentId, currentForms) == Run(Init(), lines[..i])
    {
      var rawLine := lines[i];
      RunNext(lines, i);
      i := i + 1;
      var line := Strip(rawLine);
      NoNewlineStripped(rawLine);
      if line == [] || StartsWith(line, "//") || StartsWith(line, "export") {
        continue;
      }
      if currentId.None? {
        var m := MatchKey(KeyText(line));
        if m.None? {
          continue;
        }
        var key := m.value.id;
        var rest := Strip(RStripChar(m.value.value, ','));
        if StartsWith(rest, "[") && EndsWith(rest, "]") && multiset(rest)['['] == multiset(rest)[']'] {
          entries := Put(entries, key, Forms(rest));
          continue;
        }
        currentId := Some(key);
        currentForms := [];
        if rest != [] && rest != "[" {
          currentForms := currentForms + Forms(rest);
        }
        continue;
      }
      if StartsWith(line, "]") {
        entries := Put(entries, currentId.value, currentForms);
        currentId := None;
        currentForms := [];
        continue;
      }
      currentForms := currentForms + Forms(line);
    }
    assert lines[..i] == lines;
    if currentId.Some? {
      entries := Put(entries, currentId.value, currentForms);
    }
  }

  /** Running the loop over two stretches of lines one after the other is
      running it over both. */
  lemma {:induction false} RunAppend(st: State, a: seq<string>, b: seq<string>)
    requires st.entries.Valid() && NoNewlines(a) && NoNewlines(b)
    ensures NoNewlines(a + b)
    ensures Run(st, a + b) == Run(Run(st, a), b)
    decreases |b|
  {
    assert NoNewlines(a + b) by {
      forall i | 0 <= i < |a + b| ensures '\n' !in (a + b)[i] {
        if i < |a| { assert (a + b)[i] == a[i]; } else { assert (a + b)[i] == b[i - |a|]; }
      }
    }
    if b == [] {
      assert a + b == a;
    } else {
      var b' := b[..|b| - 1];
      assert (a + b)[..|a + b| - 1] == a + b';
      assert NoNewlines(b');
      RunAppend(st, a, b');
    }
  }

  /** One more line is one more turn of the loop. */
  lemma RunSnoc(st: State, lines: seq<string>, line: string)
    requires st.entries.Valid() && NoNewlines(lines) && '\n' !in line
    ensures NoNewlines(lines + [line])
    ensures Run(st, lines + [line]) == Step(Run(st, lines), line)
  {
    assert (lines + [line])[..|lines|] == lines;
  }

  /** One more turn of the loop over a prefix of `lines`. */
  lemma RunNext(lines: seq<string>, i: nat)
    requires NoNewlines(lines) && i < |lines|
    ensures NoNewlines(lines[..i]) && NoNewlines(lines[..i + 1])
    ensures Run(Init(), lines[..i + 1]) == Step(Run(Init(), lines[..i]), lines[i])
  {
    assert lines[..i + 1][..i] == lines[..i];
  }

  lemma RunThen(st: State, a: seq<string>, b: seq<string>, mid: State, r: State)
    requires st.entries.Valid() && NoNewlines(a) && NoNewlines(b)
    requires Run(st, a) == mid && Run(mid, b) == r
    ensures NoNewlines(a + b) && Run(st, a + b) == r
  {
    RunAppend(st, a, b);
  }

  lemma RunSnocTo(st: State, lines: seq<string>, line: string, next: State)
    requires st.entries.Valid() && NoNewlines(lines) && '\n' !in line
    requires Step(Run(st, lines), line) == next
    ensures NoNewlines(lines + [line])
    ensures Run(st, lines + [line]) == next
  {
    RunSnoc(st, lines, line);
  }

  /** Every turn of the loop keeps the invariant: in particular only
      numerals are ever stored as ids, and the buffer is empty outside a
      block. */
  lemma StepKeepsInv(st: State, raw: string)
    requires Inv(st) && '\n' !in raw
    ensures Inv(Step(st, raw))
  {
    var line := Strip(raw);
    NoNewlineStripped(raw);
    if !Skipped(line) && st.current.None? {
      var m := MatchKey(KeyText(line));
      if m.Some? {
        var _, _ := MatchKeySound(KeyText(line));
      }
    }
  }

  lemma {:induction false} RunKeepsInv(st: State, lines: seq<string>)
    requires Inv(st) && NoNewlines(lines)
    ensures Inv(Run(st, lines))
    decreases |lines|
  {
    if lines != [] {
      var init := lines[..|lines| - 1];
      assert NoNewlines(init);
      RunKeepsInv(st, init);
      StepKeepsInv(Run(st, init), lines[|lines| - 1]);
    }
  }

  /** Every key of the parsed dictionary is a non-empty run of decimal digits. */
  lemma ParsedKeysAreNumerals(lines: seq<string>)
    requires NoNewlines(lines)
    ensures forall k :: k in ParseLines(lines).values ==> IsNumeral(k)
  {
    RunKeepsInv(Init(), lines);
  }

  /** A blank line, a line comment or the `export` line changes nothing,
      inside a block as well as outside one. */
  lemma SkippedLineChangesNothing(st: State, raw: string)
    requires st.entries.Valid() && '\n' !in raw && Skipped(Strip(raw))
    ensures Step(st, raw) == st
  {
  }

  /** So does any run of such lines. */
  lemma {:induction false} SkippedLinesChangeNothing(st: State, lines: seq<string>)
    requires st.entries.Valid() && NoNewlines(lines)
    requires forall i :: 0 <= i < |lines| ==> Skipped(Strip(lines[i]))
    ensures Run(st, lines) == st
    decreases |lines|
  {
    if lines != [] {
      var init := lines[..|lines| - 1];
      assert NoNewlines(init);
      SkippedLinesChangeNothing(st, init);
      SkippedLineChangesNothing(st, lines[|lines| - 1]);
    }
  }

  /** Outside a block, a line that KEY_PATTERN does not match changes nothing. */
  lemma UnmatchedLineOutside(st: State, raw: string)
    requires st.entries.Valid() && '\n' !in raw && st.current.None?
    requires '\n' !in Strip(raw) && MatchKey(KeyText(Strip(raw))).None?
    ensures Step(st, raw) == st
  {
  }

  /** Outside a block, a line that does not begin with a single quote once
      stripped is never a key line and changes nothing. */
  lemma UnquotedLineOutside(st: State, raw: string)
    requires st.entries.Valid() && '\n' !in raw && st.current.None?
    requires Strip(raw) == [] || Strip(raw)[0] != '\''
    ensures Step(st, raw) == st
  {
    var line := Strip(raw);
    NoNewlineStripped(raw);
    if line != [] {
      var t := KeyText(line);
      assert t == [] || t[0] == line[0];
      MatchKeyNeedsQuote(t);
    }
  }

  /** Outside a block, a key line whose value is a whole list stores the
      pairs of that list under the key, replacing any earlier entry for it,
      and stays outside. */
  lemma CompleteKeyLineStored(st: State, raw: string, m: KeyMatch)
    requires st.entries.Valid() && st.buffer == [] && '\n' !in raw && st.current.None? && !Skipped(Strip(raw))
    requires '\n' !in Strip(raw) && MatchKey(KeyText(Strip(raw))) == Some(m)
    requires Complete(Rest(m))
    ensures Step(st, raw) == State(Put(st.entries, m.id, Forms(Rest(m))), None, [])
  {
  }

  /** Outside a block, any other key line opens a block for its key whose
      buffer starts with the pairs found in the value. The test that skips
      the scan for an empty value or a lone `[` does not change the result:
      neither holds a pair. */
  lemma KeyLineOpensBlock(st: State, raw: string, m: KeyMatch)
    requires st.entries.Valid() && '\n' !in raw && st.current.None? && !Skipped(Strip(raw))
    requires '\n' !in Strip(raw) && MatchKey(KeyText(Strip(raw))) == Some(m)
    requires !Complete(Rest(m))
    ensures Step(st, raw) == State(st.entries, Some(m.id), Forms(Rest(m)))
  {
    NoPairInOpener();
  }

  /** Neither an empty value nor a lone `[` holds a pair. */
  lemma NoPairInOpener()
    ensures Forms("") == [] && Forms("[") == []
  {
    FormsSkipBracket("");
    assert "[" + "" == "[";
  }

  /** Inside a block, a line starting with `]` stores the buffer under the
      block's id and leaves the block with an empty buffer. */
  lemma CloseLineStoresBlock(st: State, raw: string)
    requires st.entries.Valid() && '\n' !in raw && st.current.Some?
    requires StartsWith(Strip(raw), "]")
    ensures Step(st, raw) == State(Put(st.entries, st.current.value, st.buffer), None, [])
  {
    var line := Strip(raw);
    assert line[0] == ']';
    assert !StartsWith(line, "//") && !StartsWith(line, "export");
  }

  /** Inside a block, every other line that is not skipped appends the pairs
      it holds, in order, and the block stays open; this holds for a line
      that looks like a key line too. */
  lemma BlockLineAppends(st: State, raw: string)
    requires st.entries.Valid() && '\n' !in raw && st.current.Some?
    requires !Skipped(Strip(raw)) && !StartsWith(Strip(raw), "]")
    ensures Step(st, raw) == State(st.entries, st.current, st.buffer + Forms(Strip(raw)))
  {
  }

  /** A line that, outside a block, leaves the entry for `id` alone and does
      not open a block: a skipped line, a line KEY_PATTERN does not match
      (such as the closing `};`), or a one-line entry for another id. */
  predicate LeavesEntry(raw: string, id: string)
    requires '\n' !in raw
  {
    var line := Strip(raw);
    NoNewlineStripped(raw);
    Skipped(line) ||
      match MatchKey(KeyText(line))
      case None => true
      case Some(m) => m.id != id && Complete(Rest(m))
  }

  predicate AllLeaveEntry(lines: seq<string>, id: string)
    requires NoNewlines(lines)
  {
    forall i :: 0 <= i < |lines| ==> LeavesEntry(lines[i], id)
  }

  /** Such a line keeps the parser outside a block and the entry for `id` as it is. */
  lemma LeavesEntryStep(st: State, raw: string, id: string)
    requires st.entries.Valid() && '\n' !in raw && st.current.None?
    requires id in st.entries.values && LeavesEntry(raw, id)
    ensures Step(st, raw).current.None?
    ensures id in Step(st, raw).entries.values
    ensures Step(st, raw).entries.values[id] == st.entries.values[id]
  {
  }

  lemma LeavesEntryOne(st: State, raw: string, id: string)
    requires st.entries.Valid() && '\n' !in raw && st.current.None?
    requires id in st.entries.values && LeavesEntry(raw, id)
    ensures NoNewlines([raw])
    ensures Run(st, [raw]).current.None?
    ensures id in Run(st, [raw]).entries.values
    ensures Run(st, [raw]).entries.values[id] == st.entries.values[id]
  {
    LeavesEntryStep(st, raw, id);
    assert [raw][..0] == [];
  }

  /** So does any run of such lines. */
  lemma {:induction false} LeavesEntryRun(st: State, lines: seq<string>, id: string)
    requires st.entries.Valid() && NoNewlines(lines) && st.current.None?
    requires id in st.entries.values && AllLeaveEntry(lines, id)
    ensures Run(st, lines).current.None?
    ensures id in Run(st, lines).entries.values
    ensures Run(st, lines).entries.values[id] == st.entries.values[id]
    decreases |lines|
  {
    if lines != [] {
      var init := lines[..|lines| - 1];
      assert NoNewlines(init);
      assert AllLeaveEntry(init, id);
      LeavesEntryRun(st, init, id);
      LeavesEntryStep(Run(st, init), lines[|lines| - 1], id);
    }
  }

  /** Inside a block, lines that do not start with `]` keep the block open
      and leave the stored entries alone, whatever else they hold. */
  lemma {:induction false} BlockBodyRun(st: State, lines: seq<string>)
    requires st.entries.Valid() && NoNewlines(lines) && st.current.Some?
    requires NoCloser(lines)
    ensures Run(st, lines).current == st.current
    ensures Run(st, lines).entries == st.entries
    decreases |lines|
  {
    if lines != [] {
      var init := lines[..|lines| - 1];
      assert NoNewlines(init);
      BlockBodyRun(st, init);
    }
  }

  /** A key line for an id other than `id` whose value is not a whole list:
      outside a block it opens one. */
  predicate OpensOther(raw: string, id: string)
    requires '\n' !in raw
  {
    var line := Strip(raw);
    NoNewlineStripped(raw);
    !Skipped(line) &&
      match MatchKey(KeyText(line))
      case None => false
      case Some(m) => m.id != id && !Complete(Rest(m))
  }

  predicate NoCloser(lines: seq<string>) {
    forall i :: 0 <= i < |lines| ==> !StartsWith(Strip(lines[i]), "]")
  }

  /** A whole multi-line entry for an id other than `id`: a key line that
      opens a block, lines that do not close it, and a line starting with `]`. */
  predicate OtherBlock(seg: seq<string>, id: string) {
    && |seg| >= 2 && NoNewlines(seg)
    && OpensOther(seg[0], id)
    && NoCloser(seg[1..|seg| - 1])
    && StartsWith(Strip(seg[|seg| - 1]), "]")
  }

  /** The key line of such a block, read outside a block, opens a block
      for another id and stores nothing. */
  lemma OpensOtherRun(st: State, raw: string, id: string)
    requires st.entries.Valid() && st.current.None? && '\n' !in raw
    requires OpensOther(raw, id)
    ensures Run(st, [raw]).current.Some? && Run(st, [raw]).current.value != id
    ensures Run(st, [raw]).entries == st.entries
  {
    NoNewlineStripped(raw);
    var m := MatchKey(KeyText(Strip(raw))).value;
    KeyLineOpensBlock(st, raw, m);
    RunSnoc(st, [], raw);
    assert [] + [raw] == [raw];
  }

  /** Such a block, read from outside one, ends outside and leaves the
      entry for `id` as it was. */
  lemma OtherBlockRun(st: State, seg: seq<string>, id: string)
    requires st.entries.Valid() && st.current.None? && id in st.entries.values
    requires OtherBlock(seg, id)
    ensures Run(st, seg).current.None?
    ensures id in Run(st, seg).entries.values
    ensures Run(st, seg).entries.values[id] == st.entries.values[id]
  {
    var head, body, last := [seg[0]], seg[1..|seg| - 1], seg[|seg| - 1];
    SplitEnds(seg);
    assert NoNewlines(head) && NoNewlines(body) && '\n' !in last by {
      forall i | 0 <= i < |body| ensures body[i] == seg[i + 1] { }
    }
    OpensOtherRun(st, seg[0], id);
    var afterKey := Run(st, head);
    BlockBodyRun(afterKey, body);
    var inside := Run(afterKey, body);
    RunThen(st, head, body, afterKey, inside);
    var closed := State(Put(inside.entries, inside.current.value, inside.buffer), None, []);
    CloseLineStoresBlock(inside, last);
    RunSnocTo(st, head + body, last, closed);
  }

  /** A stretch of lines after an entry for `id`: one line that leaves that
      entry alone, or a whole multi-line entry for another id. */
  predicate Segment(seg: seq<string>, id: string) {
    (|seg| == 1 && '\n' !in seg[0] && LeavesEntry(seg[0], id)) || OtherBlock(seg, id)
  }

  /** The lines of consecutive stretches. */
  function Concat(segs: seq<seq<string>>): (lines: seq<string>)
    ensures |segs| == 1 ==> lines == segs[0]
  {
    if segs == [] then [] else segs[0] + Concat(segs[1..])
  }

  /** One such stretch, read outside a block, keeps the parser outside and
      the entry for `id` as it is. */
  lemma SegmentRun(st: State, seg: seq<string>, id: string)
    requires st.entries.Valid() && st.current.None? && id in st.entries.values
    requires Segment(seg, id)
    ensures NoNewlines(seg)
    ensures Run(st, seg).current.None?
    ensures id in Run(st, seg).entries.values
    ensures Run(st, seg).entries.values[id] == st.entries.values[id]
  {
    if |seg| == 1 {
      assert seg == [seg[0]];
      LeavesEntryOne(st, seg[0], id);
    } else {
      OtherBlockRun(st, seg, id);
    }
  }

  /** Any sequence of such stretches does the same. */
  lemma {:induction false} SegmentsRun(st: State, segs: seq<seq<string>>, id: string)
    requires st.entries.Valid() && st.current.None? && id in st.entries.values
    requires forall i :: 0 <= i < |segs| ==> Segment(segs[i], id)
    ensures NoNewlines(Concat(segs))
    ensures Run(st, Concat(segs)).current.None?
    ensures id in Run(st, Concat(segs)).entries.values
    ensures Run(st, Concat(segs)).entries.values[id] == st.entries.values[id]
    decreases |segs|
  {
    if segs != [] {
      var seg, tail := segs[0], segs[1..];
      assert Segment(seg, id);
      SegmentRun(st, seg, id);
      var mid := Run(st, seg);
      assert forall i :: 0 <= i < |tail| ==> Segment(tail[i], id) by {
        forall i | 0 <= i < |tail| ensures Segment(tail[i], id) {
          assert tail[i] == segs[i + 1];
        }
      }
      SegmentsRun(mid, tail, id);
      RunAppend(st, seg, Concat(tail));
    }
  }

  /** When the same key appears again on a one-line entry, the later
      occurrence wins: whatever came before it, and whatever follows it as
      lines leaving that entry alone or whole multi-line entries for other
      ids, the key ends up with the later list. */
  lemma LastOccurrenceWins(lines: seq<string>, raw: string, m: KeyMatch, later: seq<seq<string>>)
    requires NoNewlines(lines) && '\n' !in raw
    requires Run(Init(), lines).current.None?
    requires !Skipped(Strip(raw)) && '\n' !in Strip(raw)
    requires MatchKey(KeyText(Strip(raw))) == Some(m) && Complete(Rest(m))
    requires forall i :: 0 <= i < |later| ==> Segment(later[i], m.id)
    ensures NoNewlines(lines + [raw] + Concat(later))
    ensures m.id in ParseLines(lines + [raw] + Concat(later)).values
    ensures ParseLines(lines + [raw] + Concat(later)).values[m.id] == Forms(Rest(m))
  {
    var mid := Step(Run(Init(), lines), raw);
    RunSnocTo(Init(), lines, raw, mid);
    SegmentsRun(mid, later, m.id);
    RunThen(Init(), lines + [raw], Concat(later), mid, Run(mid, Concat(later)));
  }

  /** The pairs a line inside a block adds to its buffer: none for a
      skipped line, otherwise those FORM_PATTERN finds in the stripped line. */
  function BlockLineForms(raw: string): seq<Form> {
    var line := Strip(raw);
    if Skipped(line) then [] else Forms(line)
  }

  /** The pairs that the lines inside a block add to its buffer, in order. */
  function BodyForms(lines: seq<string>): seq<Form>
    decreases |lines|
  {
    if lines == [] then []
    else BodyForms(lines[..|lines| - 1]) + BlockLineForms(lines[|lines| - 1])
  }

  /** Inside a block, a line that does not close it adds its pairs. */
  lemma BodyLineStep(st: State, raw: string)
    requires st.entries.Valid() && '\n' !in raw && st.current.Some?
    requires !StartsWith(Strip(raw), "]")
    ensures Step(st, raw) == State(st.entries, st.current, st.buffer + BlockLineForms(raw))
  {
    if Skipped(Strip(raw)) {
      SkippedLineChangesNothing(st, raw);
      AppendEmpty(st.buffer);
    } else {
      BlockLineAppends(st, raw);
    }
  }

  /** Inside a block, lines that do not close it add exactly BodyForms to
      the buffer and change nothing else. */
  lemma {:induction false} BlockBodyCollects(st: State, lines: seq<string>)
    requires st.entries.Valid() && NoNewlines(lines) && st.current.Some?
    requires NoCloser(lines)
    ensures Run(st, lines) == State(st.entries, st.current, st.buffer + BodyForms(lines))
    decreases |lines|
  {
    if lines == [] {
      AppendEmpty(st.buffer);
    } else {
      var init, last := lines[..|lines| - 1], lines[|lines| - 1];
      assert NoNewlines(init) && NoCloser(init);
      BlockBodyCollects(st, init);
      BodyLineStep(Run(st, init), last);
      AppendAssoc(st.buffer, BodyForms(init), BlockLineForms(last));
    }
  }

  /** A key line for `m.id` that opens a block, the block's lines and its
      closing `]` line, read outside a block, store the block's pairs under
      `m.id` and end outside. */
  lemma OwnBlockRun(st: State, raw: string, m: KeyMatch, body: seq<string>, close: string)
    requires st.entries.Valid() && st.current.None? && '\n' !in raw
    requires !Skipped(Strip(raw)) && '\n' !in Strip(raw)
    requires MatchKey(KeyText(Strip(raw))) == Some(m) && !Complete(Rest(m))
    requires NoNewlines(body) && NoCloser(body)
    requires '\n' !in close && StartsWith(Strip(close), "]")
    ensures NoNewlines([raw] + body + [close])
    ensures Run(st, [raw] + body + [close])
      == State(Put(st.entries, m.id, Forms(Rest(m)) + BodyForms(body)), None, [])
  {
    OwnBlockOpen(st, raw, m, body);
    var s2 := State(st.entries, Some(m.id), Forms(Rest(m)) + BodyForms(body));
    var s3 := State(Put(st.entries, m.id, Forms(Rest(m)) + BodyForms(body)), None, []);
    CloseLineStoresBlock(s2, close);
    RunSnocTo(st, [raw] + body, close, s3);
  }

  /** The key line and the lines of the block before its `]` line. */
  lemma OwnBlockOpen(st: State, raw: string, m: KeyMatch, body: seq<string>)
    requires st.entries.Valid() && st.current.None? && '\n' !in raw
    requires !Skipped(Strip(raw)) && '\n' !in Strip(raw)
    requires MatchKey(KeyText(Strip(raw))) == Some(m) && !Complete(Rest(m))
    requires NoNewlines(body) && NoCloser(body)
    ensures NoNewlines([raw] + body)
    ensures Run(st, [raw] + body) == State(st.entries, Some(m.id), Forms(Rest(m)) + BodyForms(body))
  {
    var s1 := State(st.entries, Some(m.id), Forms(Rest(m)));
    KeyLineOpensBlock(st, raw, m);
    RunOneTo(st, raw, s1);
    BlockBodyCollects(s1, body);
    RunThen(st, [raw], body, s1, Run(s1, body));
  }

  lemma RunOneTo(st: State, raw: string, next: State)
    requires st.entries.Valid() && '\n' !in raw && Step(st, raw) == next
    ensures NoNewlines([raw]) && Run(st, [raw]) == next
  {
    assert [raw][..0] == [];
  }

  /** When an id appears again on a multi-line entry, that later block wins:
      whatever came before it, and whatever follows it as lines leaving the
      entry alone or whole multi-line entries for other ids, the key ends up
      with the pairs of its value and of the block's lines. */
  lemma LaterBlockWins(lines: seq<string>, raw: string, m: KeyMatch, body: seq<string>, close: string,
                       later: seq<seq<string>>)
    requires NoNewlines(lines) && Run(Init(), lines).current.None?
    requires '\n' !in raw && !Skipped(Strip(raw)) && '\n' !in Strip(raw)
    requires MatchKey(KeyText(Strip(raw))) == Some(m) && !Complete(Rest(m))
    requires NoNewlines(body) && NoCloser(body)
    requires '\n' !in close && StartsWith(Strip(close), "]")
    requires forall i :: 0 <= i < |later| ==> Segment(later[i], m.id)
    ensures NoNewlines(lines + ([raw] + body + [close]) + Concat(later))
    ensures m.id in ParseLines(lines + ([raw] + body + [close]) + Concat(later)).values
    ensures ParseLines(lines + ([raw] + body + [close]) + Concat(later)).values[m.id]
      == Forms(Rest(m)) + BodyForms(body)
  {
    var st := Run(Init(), lines);
    var block := [raw] + body + [close];
    OwnBlockRun(st, raw, m, body, close);
    var s3 := Run(st, block);
    RunThen(Init(), lines, block, st, s3);
    SegmentsRun(s3, later, m.id);
    RunThen(Init(), lines + block, Concat(later), s3, Run(s3, Concat(later)));
  }
}
