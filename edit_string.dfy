/** The Cypher `SET` clause that DeviceRepository._makeEditString builds from the
    entries of a (partial) device object: entries whose key is `id` or whose value
    is undefined are dropped, and every remaining key `k` becomes `v.k = $k`. */
module EditString {
  import opened Seqs

  /** One `[key, value]` pair of `Object.entries(object)`; only whether the value is
      defined matters to the builder. */
  datatype Entry = Entry(key: string, defined: bool)

  /** The filter's test: `k !== 'id' && v !== undefined`. */
  predicate Eligible(e: Entry) {
    e.key != "id" && e.defined
  }

  /** The entries that survive the filter, in entry order. */
  function Kept(entries: seq<Entry>): seq<Entry> {
    Filter(Eligible, entries)
  }

  /** The text the reducer appends for the i-th of n kept entries. */
  function Assignment(varName: string, key: string, i: nat, n: nat): string {
    varName + "." + key + " = $" + key + (if i < n - 1 then "," else "") + " "
  }

  /** `a.reduce(callback, acc)` from index i on: the callback first turns an empty
      accumulator into "SET ", then appends the assignment of entry i. */
  function Reduce(acc: string, varName: string, a: seq<Entry>, i: nat): string
    requires i <= |a|
    decreases |a| - i
  {
    if i == |a| then acc
    else
      var acc' := (if acc == "" then "SET " else acc) + Assignment(varName, a[i].key, i, |a|);
      Reduce(acc', varName, a, i + 1)
  }

  /** `_makeEditString(object, varName)` over the entries of `object`. */
  function MakeEditString(entries: seq<Entry>, varName: string): string {
    Reduce("", varName, Kept(entries), 0)
  }

  // ---------------------------------------------------------------------------
  // An independent description of the output: "SET " followed by the clauses
  // joined with ", ", and a single trailing blank.

  function Clause(varName: string, key: string): string {
    varName + "." + key + " = $" + key
  }

  function Clauses(varName: string, a: seq<Entry>): (r: seq<string>)
    ensures |r| == |a|
  {
    seq(|a|, i requires 0 <= i < |a| => Clause(varName, a[i].key))
  }

  function Join(parts: seq<string>, sep: string): string {
    if |parts| == 0 then ""
    else if |parts| == 1 then parts[0]
    else parts[0] + sep + Join(parts[1..], sep)
  }

  /** Once the accumulator is non-empty, the rest of the reduction appends the
      remaining clauses joined by ", " and one blank. */
  lemma {:induction false} ReduceFrom(acc: string, varName: string, a: seq<Entry>, i: nat)
    requires acc != "" && i < |a|
    ensures Reduce(acc, varName, a, i) == acc + Join(Clauses(varName, a)[i..], ", ") + " "
    decreases |a| - i
  {
    var cs := Clauses(varName, a);
    var acc' := acc + Assignment(varName, a[i].key, i, |a|);
    if i == |a| - 1 {
      assert cs[i..] == [cs[i]];
      assert Reduce(acc', varName, a, i + 1) == acc';
    } else {
      ReduceFrom(acc', varName, a, i + 1);
      assert cs[i..][1..] == cs[i + 1..];
      assert Join(cs[i..], ", ") == cs[i] + ", " + Join(cs[i + 1..], ", ");
    }
  }

  /** The whole output: "" when no entry survives the filter, otherwise "SET "
      followed by one `v.k = $k` per kept key, in entry order, separated by ", ". */
  lemma EditStringIsJoin(entries: seq<Entry>, varName: string)
    ensures MakeEditString(entries, varName) ==
      if Kept(entries) == [] then ""
      else "SET " + Join(Clauses(varName, Kept(entries)), ", ") + " "
  {
    var a := Kept(entries);
    if a != [] {
      var first := "SET " + Assignment(varName, a[0].key, 0, |a|);
      assert MakeEditString(entries, varName) == Reduce(first, varName, a, 1);
      if |a| == 1 {
        assert Reduce(first, varName, a, 1) == first;
        assert Clauses(varName, a) == [Clause(varName, a[0].key)];
      } else {
        ReduceFrom(first, varName, a, 1);
        var cs := Clauses(varName, a);
        assert cs[1..] == cs[0..][1..];
      }
    }
  }

  /** The builder returns "" exactly when every entry is `id` or undefined, and
      otherwise a string that begins with "SET ". */
  lemma EditStringEmptyIff(entries: seq<Entry>, varName: string)
    ensures MakeEditString(entries, varName) == "" <==>
      forall i :: 0 <= i < |entries| ==> entries[i].key == "id" || !entries[i].defined
    ensures MakeEditString(entries, varName) != "" ==>
      |MakeEditString(entries, varName)| > 4 && MakeEditString(entries, varName)[..4] == "SET "
  {
    EditStringIsJoin(entries, varName);
    var a := Kept(entries);
    if a != [] {
      assert a[0] in entries;
      var k :| 0 <= k < |entries| && entries[k] == a[0];
      assert Eligible(entries[k]);
    }
  }

  /** The clauses name exactly the eligible keys: never `id`, never an undefined
      value, and every eligible entry of the object. */
  lemma KeptKeys(entries: seq<Entry>)
    ensures forall e :: e in Kept(entries) <==> e in entries && Eligible(e)
  {
  }
}
