/**
 * `summarize`: the three figures reported about a parsed dictionary — the
 * number of entries, the number of pairs over all entries, and the longest
 * name among all pairs.
 */
module Summary {
  import opened PyDict
  import opened FormPattern

  datatype Report = Report(entries: nat, totalForms: nat, longestName: string)

  /** The lists of all entries, one after the other, in the dictionary's order. */
  function AllForms(groups: seq<seq<Form>>): seq<Form> {
    if groups == [] then [] else AllForms(groups[..|groups| - 1]) + groups[|groups| - 1]
  }

  /** `sum(len(forms) for forms in ...)` */
  function TotalForms(groups: seq<seq<Form>>): nat {
    if groups == [] then 0 else TotalForms(groups[..|groups| - 1]) + |groups[|groups| - 1]|
  }

  /** The total is the number of pairs over all entries. */
  lemma {:induction false} TotalFormsCountsPairs(groups: seq<seq<Form>>)
    ensures TotalForms(groups) == |AllForms(groups)|
    decreases |groups|
  {
    if groups != [] {
      TotalFormsCountsPairs(groups[..|groups| - 1]);
    }
  }

  /** The names of the pairs, in order. */
  function Names(fs: seq<Form>): (names: seq<string>)
    ensures |names| == |fs|
    ensures forall i :: 0 <= i < |fs| ==> names[i] == fs[i].name
  {
    seq(|fs|, i requires 0 <= i < |fs| => fs[i].name)
  }

  /** Where `max(names, key=len)` finds its result: a longest name, and the
      first of them, since a later name replaces the best so far only when
      it is strictly longer. */
  function LongestIndex(names: seq<string>): (k: nat)
    requires names != []
    ensures k < |names|
    ensures forall i :: 0 <= i < |names| ==> |names[i]| <= |names[k]|
    ensures forall i :: 0 <= i < k ==> |names[i]| < |names[k]|
    decreases |names|
  {
    if |names| == 1 then 0
    else
      var k := LongestIndex(names[..|names| - 1]);
      if |names[|names| - 1]| > |names[k]| then |names| - 1 else k
  }

  /** `max(names, default="", key=len)` */
  function Longest(names: seq<string>): string {
    if names == [] then "" else names[LongestIndex(names)]
  }

  /** `summarize`, without the formatting of its three figures into a line. */
  function Summarize(d: Dict<seq<Form>>): (r: Report)
    requires d.Valid()
    ensures r.entries == |d.values|
    ensures r.totalForms == |AllForms(Values(d))|
    ensures r.longestName == "" <==> forall i :: 0 <= i < |AllForms(Values(d))| ==> AllForms(Values(d))[i].name == ""
  {
    var all := AllForms(Values(d));
    LenCountsKeys(d);
    TotalFormsCountsPairs(Values(d));
    var names := Names(all);
    var longest := Longest(names);
    assert longest == "" ==> forall i :: 0 <= i < |names| ==> |names[i]| == 0;
    Report(Len(d), TotalForms(Values(d)), longest)
  }

  /** The longest name reported is the name of some pair, at least as long
      as every other name, and strictly longer than every name before it. */
  lemma LongestNameIsFirstLongest(d: Dict<seq<Form>>) returns (k: nat)
    requires d.Valid() && AllForms(Values(d)) != []
    ensures k < |AllForms(Values(d))| && Summarize(d).longestName == AllForms(Values(d))[k].name
    ensures forall i :: 0 <= i < |AllForms(Values(d))| ==>
      |AllForms(Values(d))[i].name| <= |Summarize(d).longestName|
    ensures forall i :: 0 <= i < k ==> |AllForms(Values(d))[i].name| < |Summarize(d).longestName|
  {
    var names := Names(AllForms(Values(d)));
    k := LongestIndex(names);
  }

  /** With no pairs at all the longest name is the default, `""`. */
  lemma NoPairsNoName(d: Dict<seq<Form>>)
    requires d.Valid() && AllForms(Values(d)) == []
    ensures Summarize(d).longestName == ""
  {
  }

  /** Storing a new id adds one entry, and its pairs to the total. */
  lemma SummarizeNewEntry(d: Dict<seq<Form>>, id: string, fs: seq<Form>)
    requires d.Valid() && id !in d.values
    ensures Summarize(Put(d, id, fs)).entries == Summarize(d).entries + 1
    ensures Summarize(Put(d, id, fs)).totalForms == Summarize(d).totalForms + |fs|
  {
    var e := Put(d, id, fs);
    assert Values(e) == Values(d) + [fs];
    assert Values(e)[..|Values(e)| - 1] == Values(d);
  }
}
