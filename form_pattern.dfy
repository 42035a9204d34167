/**
 * `parse_forms_from_text`: every `['code', 'name']` pair found in a text,
 * left to right and without overlaps, as the regular expression
 * FORM_PATTERN finds them (`findall`). A pair is an opening bracket, a quoted
 * code, a comma, a quoted name and a closing bracket, with optional white
 * space around the comma and before the closing bracket; the quoted parts
 * contain no single quote.
 */
module FormPattern {
  import opened Wrappers
  import opened PyText

  /** One `[code, name]` list of the source; its two elements are the fields. */
  datatype Form = Form(code: string, name: string)

  predicate IsNotQuote(c: char) { c != '\'' }

  predicate QuoteFree(f: Form) {
    '\'' !in f.code && '\'' !in f.name
  }

  /** `'([^']*)'` at the start of `t`: the quoted text and what follows the closing quote. */
  function Quoted(t: string): (r: Option<(string, string)>)
    ensures r.Some? ==> t == "'" + r.value.0 + "'" + r.value.1 && '\'' !in r.value.0
  {
    if t != [] && t[0] == '\'' then
      var n := CountLeading(t[1..], IsNotQuote);
      if n + 1 < |t| then Some((t[1..n + 1], t[n + 2..])) else None
    else None
  }

  /** FORM_PATTERN matched at the start of `t`: the pair and the text after the match. */
  function MatchForm(t: string): (r: Option<(Form, string)>)
    ensures r.Some? ==> |r.value.1| < |t|
  {
    if t == [] || t[0] != '[' then None
    else match Quoted(t[1..])
      case None => None
      case Some((code, afterCode)) => MatchAfterCode(code, afterCode)
  }

  /** The rest of FORM_PATTERN once the quoted code has matched: `\s*,\s*` and the name. */
  function MatchAfterCode(code: string, t: string): (r: Option<(Form, string)>)
    requires '\'' !in code
    ensures r.Some? ==> |r.value.1| < |t|
  {
    var comma := LStrip(t);
    if comma == [] || comma[0] != ',' then None
    else match Quoted(LStrip(comma[1..]))
      case None => None
      case Some((name, afterName)) => MatchAfterName(code, name, afterName)
  }

  /** The end of FORM_PATTERN once both quoted parts have matched: `\s*]`. */
  function MatchAfterName(code: string, name: string, t: string): (r: Option<(Form, string)>)
    requires '\'' !in code && '\'' !in name
    ensures r.Some? ==> |r.value.1| < |t|
  {
    var close := LStrip(t);
    if close == [] || close[0] != ']' then None
    else Some((Form(code, name), close[1..]))
  }

  /** The text of one match: the pair with the given white space around the
      comma (`ws1`, `ws2`) and before the closing bracket (`ws3`). */
  function Shape(f: Form, ws1: string, ws2: string, ws3: string): string {
    "['" + f.code + "'" + ws1 + "," + ws2 + "'" + f.name + "'" + ws3 + "]"
  }

  /** `parse_forms_from_text`: the pairs found scanning left to right; after a
      match the scan resumes where the match ended. */
  function Forms(s: string): (fs: seq<Form>)
    decreases |s|
  {
    if s == [] then []
    else
      var m := MatchForm(s);
      if m.Some? then [m.value.0] + Forms(m.value.1) else Forms(s[1..])
  }

  /** Neither the code nor the name of a pair found contains a single quote. */
  lemma {:induction false} FormsQuoteFree(s: string)
    ensures forall f :: f in Forms(s) ==> QuoteFree(f)
    decreases |s|
  {
    if s != [] {
      var m := MatchForm(s);
      if m.Some? {
        FormsQuoteFree(m.value.1);
      } else {
        FormsQuoteFree(s[1..]);
      }
    }
  }

  lemma QuotedExact(q: string, rest: string)
    requires '\'' !in q
    ensures Quoted("'" + q + "'" + rest) == Some((q, rest))
  {
    var t := "'" + q + "'" + rest;
    assert t[1..] == q + ("'" + rest);
    forall i | 0 <= i < |q| ensures IsNotQuote((q + ("'" + rest))[i]) {
      assert q[i] in q;
    }
    CountLeadingExact(q + ("'" + rest), IsNotQuote, |q|);
    assert t[1..|q| + 1] == q;
    assert t[|q| + 2..] == rest;
  }

  lemma MatchAfterNameComplete(code: string, name: string, ws3: string, rest: string)
    requires '\'' !in code && '\'' !in name && AllSpace(ws3)
    ensures MatchAfterName(code, name, ws3 + "]" + rest) == Some((Form(code, name), rest))
  {
    assert ws3 + "]" + rest == ws3 + ("]" + rest);
    LStripExact(ws3, "]" + rest);
    assert ("]" + rest)[1..] == rest;
  }

  lemma MatchAfterCodeComplete(code: string, ws1: string, ws2: string, name: string, ws3: string, rest: string)
    requires '\'' !in code && '\'' !in name && AllSpace(ws1) && AllSpace(ws2) && AllSpace(ws3)
    ensures MatchAfterCode(code, ws1 + "," + ws2 + "'" + name + "'" + ws3 + "]" + rest) == Some((Form(code, name), rest))
  {
    var afterName := ws3 + "]" + rest;
    var nameOn := "'" + name + "'" + afterName;
    var comma := "," + (ws2 + nameOn);
    assert ws1 + "," + ws2 + "'" + name + "'" + ws3 + "]" + rest == ws1 + comma;
    LStripExact(ws1, comma);
    assert comma[1..] == ws2 + nameOn;
    LStripExact(ws2, nameOn);
    QuotedExact(name, afterName);
    MatchAfterNameComplete(code, name, ws3, rest);
  }

  /** Every text of the form FORM_PATTERN describes is matched, in full and
      with the pair it spells. */
  lemma MatchFormComplete(f: Form, ws1: string, ws2: string, ws3: string, rest: string)
    requires QuoteFree(f) && AllSpace(ws1) && AllSpace(ws2) && AllSpace(ws3)
    ensures MatchForm(Shape(f, ws1, ws2, ws3) + rest) == Some((f, rest))
  {
    var t := Shape(f, ws1, ws2, ws3) + rest;
    var afterCode := ws1 + "," + ws2 + "'" + f.name + "'" + ws3 + "]" + rest;
    assert t == "[" + ("'" + f.code + "'" + afterCode);
    assert t[1..] == "'" + f.code + "'" + afterCode;
    QuotedExact(f.code, afterCode);
    MatchAfterCodeComplete(f.code, ws1, ws2, f.name, ws3, rest);
  }

  lemma MatchAfterNameSound(code: string, name: string, t: string) returns (ws3: string)
    requires '\'' !in code && '\'' !in name && MatchAfterName(code, name, t).Some?
    ensures MatchAfterName(code, name, t).value.0 == Form(code, name)
    ensures AllSpace(ws3) && t == ws3 + "]" + MatchAfterName(code, name, t).value.1
  {
    var close := LStrip(t);
    LStripSplit(t);
    ws3 := t[..|t| - |close|];
    assert close == [close[0]] + close[1..];
  }

  lemma Assemble(t: string, ws1: string, comma: string, ws2: string, u: string,
                 name: string, afterName: string, ws3: string, rest: string)
    requires t == ws1 + comma && comma != [] && comma[0] == ','
    requires comma[1..] == ws2 + u && u == "'" + name + "'" + afterName && afterName == ws3 + "]" + rest
    ensures t == ws1 + "," + ws2 + "'" + name + "'" + ws3 + "]" + rest
  {
    assert comma == [comma[0]] + comma[1..];
  }

  lemma MatchAfterCodeSound(code: string, t: string) returns (ws1: string, ws2: string, ws3: string)
    requires '\'' !in code && MatchAfterCode(code, t).Some?
    ensures QuoteFree(MatchAfterCode(code, t).value.0) && MatchAfterCode(code, t).value.0.code == code
    ensures AllSpace(ws1) && AllSpace(ws2) && AllSpace(ws3)
    ensures t == ws1 + "," + ws2 + "'" + MatchAfterCode(code, t).value.0.name + "'" + ws3 + "]" + MatchAfterCode(code, t).value.1
  {
    var rest := MatchAfterCode(code, t).value.1;
    var comma := LStrip(t);
    LStripSplit(t);
    ws1 := t[..|t| - |comma|];
    var u := LStrip(comma[1..]);
    LStripSplit(comma[1..]);
    ws2 := comma[1..][..|comma[1..]| - |u|];
    var name := Quoted(u).value.0;
    var afterName := Quoted(u).value.1;
    ws3 := MatchAfterNameSound(code, name, afterName);
    Assemble(t, ws1, comma, ws2, u, name, afterName, ws3, rest);
  }

  /** Every match has the form FORM_PATTERN describes (`ws1`, `ws2`, `ws3` are
      the white space it skipped), and neither quoted part holds a quote. */
  lemma MatchFormSound(t: string) returns (ws1: string, ws2: string, ws3: string)
    requires MatchForm(t).Some?
    ensures QuoteFree(MatchForm(t).value.0)
    ensures AllSpace(ws1) && AllSpace(ws2) && AllSpace(ws3)
    ensures t == Shape(MatchForm(t).value.0, ws1, ws2, ws3) + MatchForm(t).value.1
  {
    var f := MatchForm(t).value.0;
    var rest := MatchForm(t).value.1;
    var code := Quoted(t[1..]).value.0;
    var afterCode := Quoted(t[1..]).value.1;
    ws1, ws2, ws3 := MatchAfterCodeSound(code, afterCode);
    AssembleForm(t, code, afterCode, ws1, ws2, f.name, ws3, rest);
  }

  lemma AssembleForm(t: string, code: string, afterCode: string, ws1: string, ws2: string,
                     name: string, ws3: string, rest: string)
    requires t != [] && t[0] == '['
    requires t[1..] == "'" + code + "'" + afterCode
    requires afterCode == ws1 + "," + ws2 + "'" + name + "'" + ws3 + "]" + rest
    ensures t == Shape(Form(code, name), ws1, ws2, ws3) + rest
  {
    assert t == [t[0]] + t[1..];
  }

  /** Text holding no `[` yields no pair and is skipped over. */
  lemma {:induction false} FormsSkipPrefix(a: string, b: string)
    requires '[' !in a
    ensures Forms(a + b) == Forms(b)
  {
    if a != [] {
      assert (a + b)[0] == a[0] && a[0] in a;
      assert (a + b)[1..] == a[1..] + b;
      assert '[' !in a[1..] by {
        assert forall x :: x in a[1..] ==> x in a;
      }
      FormsSkipPrefix(a[1..], b);
    } else {
      assert a + b == b;
    }
  }

  /** An opening bracket that is not followed by a quote starts no pair
      (the outer bracket of a list of pairs). */
  lemma FormsSkipBracket(x: string)
    requires x == [] || x[0] != '\''
    ensures Forms("[" + x) == Forms(x)
  {
    assert ("[" + x)[1..] == x;
  }

  /** How the source file spells one pair. */
  function Item(f: Form): string {
    Shape(f, "", " ", "")
  }

  /** The pairs of a list, separated by `", "`. */
  function Items(fs: seq<Form>): string {
    if fs == [] then ""
    else if |fs| == 1 then Item(fs[0])
    else Item(fs[0]) + ", " + Items(fs[1..])
  }

  /** A list of pairs as the source file spells it on one line. */
  function FormList(fs: seq<Form>): string {
    "[" + Items(fs) + "]"
  }

  lemma FormsOfItem(f: Form, rest: string)
    requires QuoteFree(f)
    ensures Forms(Item(f) + rest) == [f] + Forms(rest)
  {
    MatchFormComplete(f, "", " ", "", rest);
  }

  lemma {:induction false} FormsOfItems(fs: seq<Form>, rest: string)
    requires forall i :: 0 <= i < |fs| ==> QuoteFree(fs[i])
    requires '[' !in rest
    ensures Forms(Items(fs) + rest) == fs + Forms(rest)
  {
    if |fs| == 1 {
      FormsOfItem(fs[0], rest);
    } else if |fs| > 1 {
      var tail := Items(fs[1..]) + rest;
      assert Items(fs) + rest == Item(fs[0]) + (", " + tail);
      FormsOfItem(fs[0], ", " + tail);
      FormsSkipPrefix(", ", tail);
      FormsOfItems(fs[1..], rest);
      assert fs == [fs[0]] + fs[1..];
    } else {
      assert Items(fs) + rest == rest;
    }
  }

  /** Spelling a list of quote-free pairs and scanning it, together with
      any text after it that holds no `[`, gives the list back. */
  lemma FormListRoundTrip(fs: seq<Form>, rest: string)
    requires forall i :: 0 <= i < |fs| ==> QuoteFree(fs[i])
    requires '[' !in rest
    ensures Forms(FormList(fs) + rest) == fs
  {
    var close := "]" + rest;
    var x := Items(fs) + close;
    assert FormList(fs) + rest == "[" + x;
    assert x[0] == if fs == [] then ']' else '[';
    FormsSkipBracket(x);
    FormsOfItems(fs, close);
    FormsSkipPrefix(close, "");
    assert close + "" == close;
  }
}
