/**
 * The layout of the file the parser reads: an `export` line opening the
 * object literal, one entry per id, and the closing `};`. An entry is
 * written either on one line,
 *
 *     '25': [['025', 'Pikachu'], ['025-a', 'Pikachu (Alola Cap)']],
 *
 * or as a block, one pair per line, ended by a line `],`.
 *
 * The round-trip lemmas show that reading a file written this way gives
 * the dictionary obtained by assigning each entry in turn, whatever mix of
 * the two layouts is used, even when the last block is never closed.
 */
module MapLayout {
  import opened Wrappers
  import opened PyText
  import opened PyDict
  import opened BlockComments
  import opened KeyPattern
  import opened FormPattern
  import opened MapParser
  import opened SeqFacts

  /** Characters a written id, code or name may hold: none of the quote,
      the brackets, the `*` of a block comment, or a line boundary. */
  predicate Plain(c: char) {
    c != '\'' && c != '[' && c != ']' && c != '*' && !IsLineBreak(c)
  }

  predicate PlainText(s: string) {
    forall c :: c in s ==> Plain(c)
  }

  predicate PlainForm(f: Form) {
    PlainText(f.code) && PlainText(f.name)
  }

  predicate PlainForms(fs: seq<Form>) {
    forall i :: 0 <= i < |fs| ==> PlainForm(fs[i])
  }

  /** One entry of the literal, written on one line or as a block. */
  datatype Entry = Entry(id: string, forms: seq<Form>, multiLine: bool)

  predicate WellFormed(e: Entry) {
    IsNumeral(e.id) && PlainForms(e.forms)
  }

  predicate AllWellFormed(es: seq<Entry>) {
    forall i :: 0 <= i < |es| ==> WellFormed(es[i])
  }

  /** The line that opens the literal, such as
      `export const POKEMON_NAME_BY_ID: Record<string, string[][]> = {`. */
  predicate IsHeader(h: string) {
    StartsWith(h, "export") && SafeText(h) && !IsSpace(h[|h| - 1])
  }

  const Footer: string := "};"
  const CloseLine: string := "  ],"

  /** The key line of an entry, indented, with its value and a comma. */
  function KeyHead(id: string, value: string): string {
    "  " + KeyLine(id, "", " ", value) + ","
  }

  /** One pair of a block on its own line. */
  function FormLine(f: Form): string {
    "    " + Item(f) + ","
  }

  function FormLines(fs: seq<Form>): (lines: seq<string>)
    ensures |lines| == |fs|
  {
    if fs == [] then [] else FormLines(fs[..|fs| - 1]) + [FormLine(fs[|fs| - 1])]
  }

  function EntryLines(e: Entry): seq<string> {
    if e.multiLine then [KeyHead(e.id, "[")] + FormLines(e.forms) + [CloseLine]
    else [KeyHead(e.id, FormList(e.forms))]
  }

  function EntriesLines(es: seq<Entry>): seq<string> {
    if es == [] then [] else EntriesLines(es[..|es| - 1]) + EntryLines(es[|es| - 1])
  }

  function FileLines(header: string, es: seq<Entry>): seq<string> {
    [header] + EntriesLines(es) + [Footer]
  }

  /** The dictionary with each entry assigned in turn: `d[id] = forms`. */
  function PutAll(d: Dict<seq<Form>>, es: seq<Entry>): (r: Dict<seq<Form>>)
    requires d.Valid()
    ensures r.Valid()
  {
    if es == [] then d else Put(PutAll(d, es[..|es| - 1]), es[|es| - 1].id, es[|es| - 1].forms)
  }

  function Expected(es: seq<Entry>): Dict<seq<Form>> {
    PutAll(Empty(), es)
  }

  /** Characters that neither cut a line nor can open a block comment. */
  predicate SafeText(s: string) {
    forall c :: c in s ==> !IsLineBreak(c) && c != '*'
  }

  predicate SafeLines(lines: seq<string>) {
    forall i :: 0 <= i < |lines| ==> SafeText(lines[i])
  }

  lemma NumeralSafe(id: string)
    requires IsNumeral(id)
    ensures SafeText(id) && '[' !in id && '\'' !in id
  {
    forall c | c in id ensures IsDigit(c) {
      var i :| 0 <= i < |id| && id[i] == c;
    }
  }

  lemma NotCounted(s: string, c: char)
    requires c !in s
    ensures multiset(s)[c] == 0
  {
    assert c !in multiset(s);
  }

  lemma SafeConcat(a: string, b: string)
    requires SafeText(a) && SafeText(b)
    ensures SafeText(a + b)
  {
  }

  lemma ItemText(f: Form)
    ensures Item(f) == "['" + f.code + "', '" + f.name + "']"
  {
  }

  lemma ItemSafe(f: Form)
    requires PlainForm(f)
    ensures SafeText(Item(f))
  {
    ItemText(f);
    SafeConcat("['", f.code);
    SafeConcat("['" + f.code, "', '");
    SafeConcat("['" + f.code + "', '", f.name);
    SafeConcat("['" + f.code + "', '" + f.name, "']");
  }

  lemma ItemBrackets(f: Form)
    requires PlainForm(f)
    ensures multiset(Item(f))['['] == 1 && multiset(Item(f))[']'] == 1
  {
    ItemText(f);
    NotCounted(f.code, '[');
    NotCounted(f.code, ']');
    NotCounted(f.name, '[');
    NotCounted(f.name, ']');
    assert multiset(Item(f)) == multiset("['") + multiset(f.code) + multiset("', '") + multiset(f.name) + multiset("']");
  }

  lemma PlainFormsTail(fs: seq<Form>)
    requires PlainForms(fs) && fs != []
    ensures PlainForm(fs[0]) && PlainForms(fs[1..])
  {
    assert forall i :: 0 <= i < |fs[1..]| ==> fs[1..][i] == fs[i + 1];
  }

  lemma {:induction false} ItemsSafe(fs: seq<Form>)
    requires PlainForms(fs)
    ensures SafeText(Items(fs))
    decreases |fs|
  {
    if fs != [] {
      PlainFormsTail(fs);
      ItemSafe(fs[0]);
      if |fs| > 1 {
        ItemsSafe(fs[1..]);
        SafeConcat(Item(fs[0]), ", ");
        SafeConcat(Item(fs[0]) + ", ", Items(fs[1..]));
      }
    }
  }

  lemma {:induction false} ItemsBrackets(fs: seq<Form>)
    requires PlainForms(fs)
    ensures multiset(Items(fs))['['] == |fs| && multiset(Items(fs))[']'] == |fs|
    decreases |fs|
  {
    if fs != [] {
      PlainFormsTail(fs);
      ItemBrackets(fs[0]);
      if |fs| > 1 {
        ItemsBrackets(fs[1..]);
        assert Items(fs) == Item(fs[0]) + ", " + Items(fs[1..]);
        CountJoined(Item(fs[0]), Items(fs[1..]), '[');
        CountJoined(Item(fs[0]), Items(fs[1..]), ']');
      }
    }
  }

  lemma CountJoined(a: string, b: string, c: char)
    requires c != ',' && c != ' '
    ensures multiset(a + ", " + b)[c] == multiset(a)[c] + multiset(b)[c]
  {
    assert multiset(a + ", " + b) == multiset(a) + multiset(", ") + multiset(b);
  }

  /** A written list of pairs is safe and is a whole list: it has one more
      bracket of each kind than it has pairs. */
  lemma FormListSafe(fs: seq<Form>)
    requires PlainForms(fs)
    ensures SafeText(FormList(fs)) && Complete(FormList(fs))
  {
    FormListSafeText(fs);
    FormListComplete(fs);
  }

  lemma FormListSafeText(fs: seq<Form>)
    requires PlainForms(fs)
    ensures SafeText(FormList(fs))
  {
    ItemsSafe(fs);
    SafeConcat("[", Items(fs));
    SafeConcat("[" + Items(fs), "]");
  }

  lemma FormListComplete(fs: seq<Form>)
    requires PlainForms(fs)
    ensures Complete(FormList(fs))
  {
    ItemsBrackets(fs);
    Bracketed(Items(fs));
  }

  /** Wrapping text in one more pair of brackets keeps the counts equal. */
  lemma Bracketed(t: string)
    requires multiset(t)['['] == multiset(t)[']']
    ensures Complete("[" + t + "]")
  {
    var w := "[" + t + "]";
    assert multiset(w) == multiset("[") + multiset(t) + multiset("]");
    assert w[..1] == "[";
    assert w[|w| - 1..] == "]";
  }

  lemma PlainQuoteFree(fs: seq<Form>)
    requires PlainForms(fs)
    ensures forall i :: 0 <= i < |fs| ==> QuoteFree(fs[i])
  {
    forall i | 0 <= i < |fs| ensures QuoteFree(fs[i]) {
      assert PlainForm(fs[i]);
    }
  }

  lemma KeyHeadText(id: string, v: string)
    ensures KeyHead(id, v) == "  " + (KeyLine(id, "", " ", v) + ",")
    ensures KeyLine(id, "", " ", v) == "'" + id + "': " + v
  {
  }

  lemma KeyHeadSafe(id: string, v: string)
    requires IsNumeral(id) && SafeText(v)
    ensures SafeText(KeyHead(id, v))
  {
    NumeralSafe(id);
    KeyHeadText(id, v);
    SafeConcat("'", id);
    SafeConcat("'" + id, "': ");
    SafeConcat("'" + id + "': ", v);
    SafeConcat("'" + id + "': " + v, ",");
    SafeConcat("  ", "'" + id + "': " + v + ",");
  }

  lemma SafeNoNewline(s: string)
    requires SafeText(s)
    ensures '\n' !in s && NoLineBreak(s)
  {
    assert IsLineBreak('\n');
    forall i | 0 <= i < |s| ensures !IsLineBreak(s[i]) {
      assert s[i] in s;
    }
  }

  lemma KeyHeadNoNewline(id: string, v: string)
    requires IsNumeral(id) && SafeText(v)
    ensures '\n' !in KeyHead(id, v) && '\n' !in KeyLine(id, "", " ", v)
  {
    KeyHeadSafe(id, v);
    SafeNoNewline(KeyHead(id, v));
    KeyHeadText(id, v);
    assert forall c :: c in KeyLine(id, "", " ", v) ==> c in KeyHead(id, v);
  }

  lemma KeyHeadStripped(id: string, v: string)
    requires v != [] && !IsSpace(v[0])
    ensures Strip(KeyHead(id, v)) == KeyLine(id, "", " ", v) + ","
  {
    KeyHeadText(id, v);
    StripIndented("  ", KeyLine(id, "", " ", v) + ",");
  }

  lemma RStripComma(t: string)
    requires t != [] && t[|t| - 1] != ','
    ensures RStripChar(t + ",", ',') == t
  {
    var line := t + ",";
    RStripCharExact(line, ',', |t|);
    assert line[..|t|] == t;
  }

  /** Stripped, a key line is the key and value with the comma; KEY_PATTERN
      matches it, after `rstrip(",")`, with the id and the value. */
  lemma KeyHeadMatched(id: string, v: string)
    requires IsNumeral(id) && SafeText(v)
    requires v != [] && !IsSpace(v[0]) && v[|v| - 1] != ','
    ensures '\n' !in KeyHead(id, v) && '\n' !in Strip(KeyHead(id, v))
    ensures Strip(KeyHead(id, v)) == KeyLine(id, "", " ", v) + ","
    ensures !Skipped(Strip(KeyHead(id, v)))
    ensures MatchKey(KeyText(Strip(KeyHead(id, v)))) == Some(KeyMatch(id, v))
  {
    KeyHeadNoNewline(id, v);
    KeyHeadStripped(id, v);
    KeyLineNotSkipped(id, v);
    KeyLineMatched(id, v);
  }

  lemma KeyLineNotSkipped(id: string, v: string)
    ensures !Skipped(KeyLine(id, "", " ", v) + ",")
  {
    assert (KeyLine(id, "", " ", v) + ",")[0] == '\'';
  }

  lemma KeyLineMatched(id: string, v: string)
    requires IsNumeral(id) && SafeText(v)
    requires v != [] && !IsSpace(v[0]) && v[|v| - 1] != ','
    ensures '\n' !in KeyLine(id, "", " ", v) + ","
    ensures MatchKey(KeyText(KeyLine(id, "", " ", v) + ",")) == Some(KeyMatch(id, v))
  {
    KeyHeadNoNewline(id, v);
    RStripComma(KeyLine(id, "", " ", v));
    MatchKeyComplete(id, "", " ", v);
  }

  /** The value of a key line is taken as it was written. */
  lemma RestAsWritten(id: string, v: string)
    requires v != [] && !IsSpace(v[0]) && !IsSpace(v[|v| - 1]) && v[|v| - 1] != ','
    ensures Rest(KeyMatch(id, v)) == v
  {
    RStripCharExact(v, ',', |v|);
    assert v[..|v|] == v;
    StripTrimmed(v);
  }

  lemma FormsOfFormList(fs: seq<Form>)
    requires PlainForms(fs)
    ensures Forms(FormList(fs)) == fs
  {
    PlainQuoteFree(fs);
    FormListRoundTrip(fs, "");
    assert FormList(fs) + "" == FormList(fs);
  }

  /** Outside a block, a one-line entry stores its pairs under its id. */
  lemma OneLineEntryStep(st: State, id: string, fs: seq<Form>)
    requires st.entries.Valid() && st.current.None? && st.buffer == []
    requires IsNumeral(id) && PlainForms(fs)
    ensures SafeText(KeyHead(id, FormList(fs)))
    ensures Step(st, KeyHead(id, FormList(fs))) == State(Put(st.entries, id, fs), None, [])
  {
    OneLineEntryMatched(id, fs);
    OneLineEntryRest(id, fs);
    CompleteKeyLineStored(st, KeyHead(id, FormList(fs)), KeyMatch(id, FormList(fs)));
  }

  lemma OneLineEntryMatched(id: string, fs: seq<Form>)
    requires IsNumeral(id) && PlainForms(fs)
    ensures SafeText(KeyHead(id, FormList(fs)))
    ensures '\n' !in KeyHead(id, FormList(fs)) && '\n' !in Strip(KeyHead(id, FormList(fs)))
    ensures !Skipped(Strip(KeyHead(id, FormList(fs))))
    ensures MatchKey(KeyText(Strip(KeyHead(id, FormList(fs))))) == Some(KeyMatch(id, FormList(fs)))
  {
    var v := FormList(fs);
    FormListSafe(fs);
    KeyHeadSafe(id, v);
    KeyHeadMatched(id, v);
  }

  lemma OneLineEntryRest(id: string, fs: seq<Form>)
    requires PlainForms(fs)
    ensures Complete(Rest(KeyMatch(id, FormList(fs))))
    ensures Forms(Rest(KeyMatch(id, FormList(fs)))) == fs
  {
    FormListSafe(fs);
    RestAsWritten(id, FormList(fs));
    FormsOfFormList(fs);
  }

  /** Outside a block, the key line of a block opens it with no pairs yet. */
  lemma OpenLineStep(st: State, id: string)
    requires st.entries.Valid() && st.current.None?
    requires IsNumeral(id)
    ensures SafeText(KeyHead(id, "["))
    ensures Step(st, KeyHead(id, "[")) == State(st.entries, Some(id), [])
  {
    assert SafeText("[");
    KeyHeadSafe(id, "[");
    KeyHeadMatched(id, "[");
    RestAsWritten(id, "[");
    KeyLineOpensBlock(st, KeyHead(id, "["), KeyMatch(id, "["));
    NoPairInOpener();
  }

  lemma FormLineStripped(f: Form)
    requires PlainForm(f)
    ensures SafeText(FormLine(f)) && '\n' !in FormLine(f)
    ensures Strip(FormLine(f)) == Item(f) + ","
    ensures !Skipped(Item(f) + ",") && !StartsWith(Item(f) + ",", "]")
  {
    FormLineSafe(f);
    ItemText(f);
    assert Item(f)[0] == '[';
    BracketLine(Item(f) + ",");
    FormLineStrip(f);
  }

  lemma FormLineSafe(f: Form)
    requires PlainForm(f)
    ensures SafeText(FormLine(f)) && '\n' !in FormLine(f)
  {
    ItemSafe(f);
    SafeConcat("    ", Item(f));
    SafeConcat("    " + Item(f), ",");
    SafeNoNewline(FormLine(f));
  }

  lemma FormLineStrip(f: Form)
    requires Item(f) != [] && Item(f)[0] == '['
    ensures Strip(FormLine(f)) == Item(f) + ","
  {
    var line := Item(f) + ",";
    assert FormLine(f) == "    " + line;
    StripIndented("    ", line);
  }

  /** A line opening with `[` is neither skipped nor a closing line. */
  lemma BracketLine(line: string)
    requires line != [] && line[0] == '['
    ensures !Skipped(line) && !StartsWith(line, "]")
  {
  }

  lemma FormsOfFormLine(f: Form)
    requires PlainForm(f)
    ensures Forms(Item(f) + ",") == [f]
  {
    FormsOfItem(f, ",");
    FormsSkipPrefix(",", "");
    assert "," + "" == ",";
  }

  /** Inside a block, a line holding one pair appends that pair. */
  lemma FormLineStep(st: State, f: Form)
    requires st.entries.Valid() && st.current.Some? && PlainForm(f)
    ensures SafeText(FormLine(f))
    ensures Step(st, FormLine(f)) == State(st.entries, st.current, st.buffer + [f])
  {
    FormLineStripped(f);
    FormsOfFormLine(f);
    BlockLineAppends(st, FormLine(f));
  }

  lemma FormsOfKeyLine(id: string, fs: seq<Form>)
    requires IsNumeral(id) && PlainForms(fs)
    ensures Forms(KeyLine(id, "", " ", FormList(fs)) + ",") == fs
  {
    var v := FormList(fs);
    NumeralSafe(id);
    var prefix := "'" + id + "': ";
    assert '[' !in prefix;
    KeyHeadText(id, v);
    assert KeyLine(id, "", " ", v) + "," == prefix + (v + ",");
    FormsSkipPrefix(prefix, v + ",");
    PlainQuoteFree(fs);
    FormListRoundTrip(fs, ",");
  }

  /** Inside a block, a line that looks like a one-line entry is not a key
      line: its pairs join the block and the block stays open. */
  lemma KeyLikeLineInBlock(st: State, id: string, fs: seq<Form>)
    requires st.entries.Valid() && st.current.Some?
    requires IsNumeral(id) && PlainForms(fs)
    ensures SafeText(KeyHead(id, FormList(fs)))
    ensures Step(st, KeyHead(id, FormList(fs))) == State(st.entries, st.current, st.buffer + fs)
  {
    var v := FormList(fs);
    FormListSafe(fs);
    KeyHeadSafe(id, v);
    KeyHeadMatched(id, v);
    assert (KeyLine(id, "", " ", v) + ",")[0] == '\'';
    FormsOfKeyLine(id, fs);
    BlockLineAppends(st, KeyHead(id, v));
  }

  /** Inside a block, the closing line stores the block. */
  lemma CloseLineStep(st: State)
    requires st.entries.Valid() && st.current.Some?
    ensures SafeText(CloseLine)
    ensures Step(st, CloseLine) == State(Put(st.entries, st.current.value, st.buffer), None, [])
  {
    CloseLineSafe();
    CloseLineStripped();
    CloseLineStarts();
    CloseLineStoresBlock(st, CloseLine);
  }

  lemma CloseLineSafe()
    ensures SafeText(CloseLine) && '\n' !in CloseLine
  {
    SafeNoNewline(CloseLine);
  }

  lemma CloseLineStripped()
    ensures Strip(CloseLine) == "],"
  {
    assert CloseLine == "  " + "],";
    StripIndented("  ", "],");
  }

  lemma CloseLineStarts()
    ensures StartsWith("],", "]")
  {
    assert "],"[..1] == "]";
  }

  /** The `export` line is skipped in either state. */
  lemma HeaderStep(st: State, header: string)
    requires st.entries.Valid() && IsHeader(header)
    ensures Step(st, header) == st
  {
    assert header[0] == 'e';
    StripTrimmed(header);
    SafeNoNewline(header);
    SkippedLineChangesNothing(st, header);
  }

  /** Outside a block, the closing `};` of the literal is ignored. */
  lemma FooterStep(st: State)
    requires st.entries.Valid() && st.current.None?
    ensures Step(st, Footer) == st
  {
    StripTrimmed(Footer);
    UnquotedLineOutside(st, Footer);
  }

  lemma FooterSafe()
    ensures SafeText(Footer)
  {
  }

  lemma SafeLinesNoNewlines(lines: seq<string>)
    requires SafeLines(lines)
    ensures NoNewlines(lines)
    ensures forall i :: 0 <= i < |lines| ==> NoLineBreak(lines[i])
  {
    forall i | 0 <= i < |lines| ensures '\n' !in lines[i] && NoLineBreak(lines[i]) {
      SafeNoNewline(lines[i]);
    }
  }

  lemma SafeLinesConcat(a: seq<string>, b: seq<string>)
    requires SafeLines(a) && SafeLines(b)
    ensures SafeLines(a + b)
  {
    forall i | 0 <= i < |a + b| ensures SafeText((a + b)[i]) {
      if i < |a| { assert (a + b)[i] == a[i]; } else { assert (a + b)[i] == b[i - |a|]; }
    }
  }

  lemma SafeLinesSnoc(lines: seq<string>, line: string)
    requires SafeLines(lines) && SafeText(line)
    ensures SafeLines(lines + [line]) && NoNewlines(lines + [line])
  {
    SafeLinesConcat(lines, [line]);
    SafeLinesNoNewlines(lines + [line]);
  }

  lemma PlainFormsInit(fs: seq<Form>)
    requires PlainForms(fs) && fs != []
    ensures PlainForms(fs[..|fs| - 1]) && PlainForm(fs[|fs| - 1])
  {
    assert forall i :: 0 <= i < |fs| - 1 ==> fs[..|fs| - 1][i] == fs[i];
  }

  /** The loop over the pair lines of a block appends their pairs, in order. */
  lemma {:induction false} FormLinesRun(st: State, fs: seq<Form>)
    requires st.entries.Valid() && st.current.Some? && PlainForms(fs)
    ensures SafeLines(FormLines(fs)) && NoNewlines(FormLines(fs))
    ensures Run(st, FormLines(fs)) == State(st.entries, st.current, st.buffer + fs)
    decreases |fs|
  {
    if fs == [] {
      AppendEmpty(st.buffer);
    } else {
      var init := fs[..|fs| - 1];
      var f := fs[|fs| - 1];
      PlainFormsInit(fs);
      FormLinesRun(st, init);
      var lines := FormLines(init);
      var line := FormLine(f);
      FormLineStep(Run(st, lines), f);
      SafeLinesSnoc(lines, line);
      AppendSnoc(st.buffer, fs);
      RunSnocTo(st, lines, line, State(st.entries, st.current, st.buffer + fs));
    }
  }

  lemma RunOne(st: State, line: string)
    requires st.entries.Valid() && '\n' !in line
    ensures NoNewlines([line])
    ensures Run(st, [line]) == Step(st, line)
  {
    assert [line][..0] == [];
  }

  /** Outside a block, the lines of one entry store its pairs under its id
      and leave the parser outside a block, in either layout. */
  lemma EntryRun(st: State, e: Entry)
    requires st.entries.Valid() && st.current.None? && st.buffer == [] && WellFormed(e)
    ensures SafeLines(EntryLines(e)) && NoNewlines(EntryLines(e))
    ensures Run(st, EntryLines(e)) == State(Put(st.entries, e.id, e.forms), None, [])
  {
    if e.multiLine {
      BlockEntryRun(st, e.id, e.forms);
    } else {
      var line := KeyHead(e.id, FormList(e.forms));
      OneLineEntryStep(st, e.id, e.forms);
      SafeNoNewline(line);
      RunOne(st, line);
    }
  }

  /** The key line and the pair lines of a block leave it open with all
      its pairs collected. */
  lemma OpenBlockRun(st: State, id: string, fs: seq<Form>)
    requires st.entries.Valid() && st.current.None? && IsNumeral(id) && PlainForms(fs)
    ensures SafeLines([KeyHead(id, "[")] + FormLines(fs)) && NoNewlines([KeyHead(id, "[")] + FormLines(fs))
    ensures Run(st, [KeyHead(id, "[")] + FormLines(fs)) == State(st.entries, Some(id), fs)
  {
    var open := KeyHead(id, "[");
    var mid := State(st.entries, Some(id), []);
    OpenLineRun(st, id);
    FormLinesRun(mid, fs);
    AppendEmpty(fs);
    RunThen(st, [open], FormLines(fs), mid, State(st.entries, Some(id), fs));
    SafeLinesConcat([open], FormLines(fs));
  }

  lemma OpenLineRun(st: State, id: string)
    requires st.entries.Valid() && st.current.None? && IsNumeral(id)
    ensures SafeLines([KeyHead(id, "[")]) && NoNewlines([KeyHead(id, "[")])
    ensures Run(st, [KeyHead(id, "[")]) == State(st.entries, Some(id), [])
  {
    OpenLineStep(st, id);
    SafeNoNewline(KeyHead(id, "["));
    RunOne(st, KeyHead(id, "["));
  }

  lemma BlockEntryRun(st: State, id: string, fs: seq<Form>)
    requires st.entries.Valid() && st.current.None? && st.buffer == [] && IsNumeral(id) && PlainForms(fs)
    ensures SafeLines(EntryLines(Entry(id, fs, true))) && NoNewlines(EntryLines(Entry(id, fs, true)))
    ensures Run(st, EntryLines(Entry(id, fs, true))) == State(Put(st.entries, id, fs), None, [])
  {
    var head := [KeyHead(id, "[")] + FormLines(fs);
    OpenBlockRun(st, id, fs);
    CloseLineStep(Run(st, head));
    CloseLineSafe();
    SafeLinesSnoc(head, CloseLine);
    RunSnocTo(st, head, CloseLine, State(Put(st.entries, id, fs), None, []));
  }

  lemma AllWellFormedInit(es: seq<Entry>)
    requires AllWellFormed(es) && es != []
    ensures AllWellFormed(es[..|es| - 1]) && WellFormed(es[|es| - 1])
  {
    assert forall i :: 0 <= i < |es| - 1 ==> es[..|es| - 1][i] == es[i];
  }

  /** Outside a block, the lines of a sequence of entries assign them in turn. */
  lemma {:induction false} EntriesRun(st: State, es: seq<Entry>)
    requires st.entries.Valid() && st.current.None? && st.buffer == [] && AllWellFormed(es)
    ensures SafeLines(EntriesLines(es)) && NoNewlines(EntriesLines(es))
    ensures Run(st, EntriesLines(es)) == State(PutAll(st.entries, es), None, [])
    decreases |es|
  {
    if es != [] {
      var init := es[..|es| - 1];
      var e := es[|es| - 1];
      AllWellFormedInit(es);
      EntriesRun(st, init);
      EntryRun(Run(st, EntriesLines(init)), e);
      RunAppend(st, EntriesLines(init), EntryLines(e));
      SafeLinesConcat(EntriesLines(init), EntryLines(e));
      SafeLinesNoNewlines(EntriesLines(es));
    }
  }

  lemma HeaderRun(st: State, header: string)
    requires st.entries.Valid() && IsHeader(header)
    ensures SafeLines([header]) && NoNewlines([header])
    ensures Run(st, [header]) == st
  {
    HeaderStep(st, header);
    SafeNoNewline(header);
    RunOne(st, header);
  }

  lemma FooterRun(st: State)
    requires st.entries.Valid() && st.current.None?
    ensures SafeLines([Footer]) && NoNewlines([Footer])
    ensures Run(st, [Footer]) == st
  {
    FooterStep(st);
    FooterSafe();
    SafeNoNewline(Footer);
    RunOne(st, Footer);
  }

  /** The header line and the entries: everything before the closing line. */
  lemma HeadRun(header: string, es: seq<Entry>)
    requires IsHeader(header) && AllWellFormed(es)
    ensures SafeLines([header] + EntriesLines(es)) && NoNewlines([header] + EntriesLines(es))
    ensures Run(Init(), [header] + EntriesLines(es)) == State(Expected(es), None, [])
  {
    HeaderRun(Init(), header);
    EntriesRun(Init(), es);
    RunThen(Init(), [header], EntriesLines(es), Init(), State(Expected(es), None, []));
    SafeLinesConcat([header], EntriesLines(es));
  }

  /** Reading a file written in this layout gives the dictionary with every
      entry assigned in turn; an id that appears twice keeps its place and
      gets the later list. */
  lemma FileRoundTrip(header: string, es: seq<Entry>)
    requires IsHeader(header) && AllWellFormed(es)
    ensures SafeLines(FileLines(header, es)) && NoNewlines(FileLines(header, es))
    ensures ParseLines(FileLines(header, es)) == Expected(es)
  {
    var head := [header] + EntriesLines(es);
    var mid := State(Expected(es), None, []);
    HeadRun(header, es);
    FooterRun(mid);
    RunThen(Init(), head, [Footer], mid, mid);
    SafeLinesConcat(head, [Footer]);
  }

  /** A file that ends inside a block, its closing line missing, still gets
      that block stored under its id. */
  lemma UnclosedBlockFlushed(header: string, es: seq<Entry>, id: string, fs: seq<Form>)
    requires IsHeader(header) && AllWellFormed(es) && IsNumeral(id) && PlainForms(fs)
    ensures NoNewlines([header] + EntriesLines(es) + ([KeyHead(id, "[")] + FormLines(fs)))
    ensures ParseLines([header] + EntriesLines(es) + ([KeyHead(id, "[")] + FormLines(fs)))
      == Put(Expected(es), id, fs)
  {
    var head := [header] + EntriesLines(es);
    var mid := State(Expected(es), None, []);
    HeadRun(header, es);
    OpenBlockRun(mid, id, fs);
    RunThen(Init(), head, [KeyHead(id, "[")] + FormLines(fs), mid, State(Expected(es), Some(id), fs));
  }

  lemma SafeTextNoOpener(text: string)
    requires '*' !in text
    ensures forall k :: !OpensAt(text, k)
  {
    forall k ensures !OpensAt(text, k) {
      if 0 <= k && k + 1 < |text| {
        assert text[k + 1] in text;
      }
    }
  }

  /** The same on the text of the file: it holds no block comment, splits
      back into its lines, and parses to the dictionary of its entries. */
  lemma FileTextRoundTrip(header: string, es: seq<Entry>)
    requires IsHeader(header) && AllWellFormed(es)
    ensures ParseMap(JoinLines(FileLines(header, es))) == Expected(es)
  {
    var lines := FileLines(header, es);
    FileRoundTrip(header, es);
    SafeLinesNoNewlines(lines);
    JoinLinesAvoids(lines, '*');
    var text := JoinLines(lines);
    SafeTextNoOpener(text);
    NoOpenerUnchanged(text);
    SplitJoinLines(lines);
  }
}
