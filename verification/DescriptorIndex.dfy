/** The symbol index of a descriptor database: an ordered map searched by one predecessor
    probe, which is right exactly as long as no key is a dotted parent of another key. */
module DescriptorIndexes {
  import opened Options
  import opened SymbolNames

  /** One key/value pair of the ordered map; the map is its in-order listing. */
  datatype Entry<V> = Entry(key: string, value: V)

  ghost predicate Sorted<V>(entries: seq<Entry<V>>) {
    forall i, j | 0 <= i < j < |entries| :: Less(entries[i].key, entries[j].key)
  }

  ghost predicate ValidKeys<V>(entries: seq<Entry<V>>) {
    forall i | 0 <= i < |entries| :: ValidName(entries[i].key)
  }

  /** The map invariant of the class: no key is a sub-symbol of another. */
  ghost predicate PrefixFree<V>(entries: seq<Entry<V>>) {
    forall i, j | 0 <= i < |entries| && 0 <= j < |entries| && i != j ::
      !IsSubSymbol(entries[i].key, entries[j].key)
  }

  /** Some key equals `name`, is a parent of it, or lies under it. */
  ghost predicate Conflicts<V>(entries: seq<Entry<V>>, name: string) {
    exists i | 0 <= i < |entries| ::
      IsSubSymbol(entries[i].key, name) || IsSubSymbol(name, entries[i].key)
  }

  /** The one conflict the insertion test cannot see: every key sorts after `name`,
      and the first one is the only key under it. */
  ghost predicate HiddenChild<V>(entries: seq<Entry<V>>, name: string) {
    && entries != []
    && Less(name, entries[0].key)
    && IsSubSymbol(name, entries[0].key)
    && forall i | 1 <= i < |entries| :: !IsSubSymbol(name, entries[i].key)
  }

  /** `std::map::upper_bound`: the position of the first key that sorts after `name`. */
  function UpperBound<V>(entries: seq<Entry<V>>, name: string): (k: nat)
    ensures k <= |entries|
    ensures forall i | 0 <= i < k :: !Less(name, entries[i].key)
    ensures k < |entries| ==> Less(name, entries[k].key)
  {
    if entries == [] || Less(name, entries[0].key) then 0
    else 1 + UpperBound(entries[1..], name)
  }

  /** What a lookup should return: the value of some key that is `name` or a parent of it. */
  function LinearSearch<V>(entries: seq<Entry<V>>, name: string): (r: Option<V>)
    ensures r == None <==> forall i | 0 <= i < |entries| :: !IsSubSymbol(entries[i].key, name)
    ensures r.Some? ==>
      exists i | 0 <= i < |entries| :: IsSubSymbol(entries[i].key, name) && r == Some(entries[i].value)
  {
    if entries == [] then None
    else if IsSubSymbol(entries[0].key, name) then Some(entries[0].value)
    else LinearSearch(entries[1..], name)
  }

  /** What the single predecessor probe returns. */
  function Probe<V>(entries: seq<Entry<V>>, name: string): Option<V> {
    var k := UpperBound(entries, name);
    var found := if k == 0 then 0 else k - 1;
    if found < |entries| && IsSubSymbol(entries[found].key, name) then Some(entries[found].value) else None
  }

  /** The two comparisons an insertion of a valid name makes in a non-empty map. */
  predicate InsertionTest<V>(entries: seq<Entry<V>>, name: string)
    requires entries != []
  {
    var k := UpperBound(entries, name);
    var found := if k == 0 then 0 else k - 1;
    && !IsSubSymbol(entries[found].key, name)
    && !(found + 1 < |entries| && IsSubSymbol(name, entries[found + 1].key))
  }

  /** The map with one more entry, put at its place in the order. */
  function Inserted<V>(before: seq<Entry<V>>, entry: Entry<V>): (after: seq<Entry<V>>)
    ensures |after| == |before| + 1
    ensures after[UpperBound(before, entry.key)] == entry
    ensures forall i | 0 <= i < UpperBound(before, entry.key) :: after[i] == before[i]
    ensures forall i | UpperBound(before, entry.key) < i < |after| :: after[i] == before[i - 1]
  {
    var k := UpperBound(before, entry.key);
    before[..k] + [entry] + before[k..]
  }

  lemma AfterUpperBound<V>(entries: seq<Entry<V>>, name: string, i: nat)
    requires Sorted(entries) && UpperBound(entries, name) <= i < |entries|
    ensures Less(name, entries[i].key)
  {
    var k := UpperBound(entries, name);
    if k < i {
      LessTransitive(name, entries[k].key, entries[i].key);
    }
  }

  /** The probed key lies under every key that matches `name`. */
  lemma ProbedKeyUnderEveryMatch<V>(entries: seq<Entry<V>>, name: string, i: nat)
    requires Sorted(entries) && ValidKeys(entries)
    requires i < |entries| && IsSubSymbol(entries[i].key, name)
    ensures i < UpperBound(entries, name)
    ensures IsSubSymbol(entries[i].key, entries[UpperBound(entries, name) - 1].key)
    ensures IsSubSymbol(entries[UpperBound(entries, name) - 1].key, name) ==>
      IsSubSymbol(entries[i].key, name)
  {
    var k := UpperBound(entries, name);
    var key := entries[i].key;
    if key != name {
      PrefixSortsFirst(key, name);
    }
    LessTotal(key, name);
    if k <= i {
      AfterUpperBound(entries, name, i);
      assert false;
    }
    LessTotal(entries[k - 1].key, name);
    if key != name {
      BetweenParentAndChild(key, entries[k - 1].key, name);
    } else if i < k - 1 {
      assert false;
    }
  }

  /** The first key after `name` lies under it whenever any key properly does. */
  lemma SuccessorUnderName<V>(entries: seq<Entry<V>>, name: string, i: nat)
    requires Sorted(entries) && ValidKeys(entries)
    requires i < |entries| && IsSubSymbol(name, entries[i].key) && entries[i].key != name
    ensures UpperBound(entries, name) <= i
    ensures IsSubSymbol(name, entries[UpperBound(entries, name)].key)
  {
    var k := UpperBound(entries, name);
    PrefixSortsFirst(name, entries[i].key);
    if k < i {
      BetweenParentAndChild(name, entries[k].key, entries[i].key);
    }
  }

  /** The prefix search of the class: under the invariant one probe does the work of a linear search. */
  lemma ProbeIsLinearSearch<V>(entries: seq<Entry<V>>, name: string)
    requires Sorted(entries) && ValidKeys(entries) && PrefixFree(entries)
    ensures Probe(entries, name) == LinearSearch(entries, name)
  {
    var k := UpperBound(entries, name);
    if i :| 0 <= i < |entries| && IsSubSymbol(entries[i].key, name) {
      ProbedKeyUnderEveryMatch(entries, name, i);
      assert i == k - 1;
      forall j | 0 <= j < |entries| && IsSubSymbol(entries[j].key, name)
        ensures j == i
      {
        ProbedKeyUnderEveryMatch(entries, name, j);
      }
    }
  }

  lemma SomeNameMissed<V>(entries: seq<Entry<V>>)
    requires Sorted(entries) && ValidKeys(entries) && !PrefixFree(entries)
    ensures exists name :: ValidName(name) && LinearSearch(entries, name).Some? && !Probe(entries, name).Some?
  {
    var i, j :| 0 <= i < |entries| && 0 <= j < |entries| && i != j && IsSubSymbol(entries[i].key, entries[j].key);
    var _ := MissedName(entries, i, j);
  }

  /** The probe finds every valid symbol name that some key covers. */
  ghost predicate FindsEveryName<V>(entries: seq<Entry<V>>) {
    forall name | ValidName(name) && LinearSearch(entries, name).Some? :: Probe(entries, name).Some?
  }

  /** The invariant is not only sufficient: without it the probe misses a match for some valid
      symbol name. */
  lemma ProbeCompleteIffPrefixFree<V>(entries: seq<Entry<V>>)
    requires Sorted(entries) && ValidKeys(entries)
    ensures PrefixFree(entries) <==> FindsEveryName(entries)
  {
    if PrefixFree(entries) {
      forall name | LinearSearch(entries, name).Some? ensures Probe(entries, name).Some? {
        ProbeIsLinearSearch(entries, name);
      }
    } else {
      SomeNameMissed(entries);
    }
  }

  lemma ChildSortsAfter<V>(entries: seq<Entry<V>>, i: nat, j: nat)
    requires Sorted(entries) && i < |entries| && j < |entries| && i != j
    requires IsSubSymbol(entries[i].key, entries[j].key)
    ensures i < j && Less(entries[i].key, entries[j].key) && entries[i].key != entries[j].key
  {
    var p, q := entries[i].key, entries[j].key;
    LessTotal(p, q);
    assert p != q;
    PrefixSortsFirst(p, q);
  }

  /** The last key under key number `i`, given that number `j` is one. */
  lemma {:induction false} LastUnder<V>(entries: seq<Entry<V>>, i: nat, j: nat) returns (last: nat)
    requires i < |entries| && j < |entries| && i != j && IsSubSymbol(entries[i].key, entries[j].key)
    requires Sorted(entries)
    ensures j <= last < |entries| && i != last && IsSubSymbol(entries[i].key, entries[last].key)
    ensures last + 1 < |entries| ==> !IsSubSymbol(entries[i].key, entries[last + 1].key)
    decreases |entries| - j
  {
    ChildSortsAfter(entries, i, j);
    if j + 1 < |entries| && IsSubSymbol(entries[i].key, entries[j + 1].key) {
      last := LastUnder(entries, i, j + 1);
    } else {
      last := j;
    }
  }

  /** With keys "p" and, last of those under it, "p.q", the valid name "p.q0" has the parent "p",
      but the probe stops at "p.q" and returns nothing. */
  lemma MissedName<V>(entries: seq<Entry<V>>, i: nat, j: nat) returns (name: string)
    requires Sorted(entries) && ValidKeys(entries)
    requires i < |entries| && j < |entries| && i != j && IsSubSymbol(entries[i].key, entries[j].key)
    ensures ValidName(name) && LinearSearch(entries, name).Some? && Probe(entries, name) == None
  {
    hide IsSubSymbol, Less, ValidName, PrefixFree, UpperBound, Sorted;
    var last := LastUnder(entries, i, j);
    ChildSortsAfter(entries, i, last);
    name := entries[last].key + "0";
    SiblingName(entries[i].key, entries[last].key, name);
    ProbedAt(entries, name, i, last);
  }

  lemma SiblingName(parent: string, child: string, name: string)
    requires IsSubSymbol(parent, child) && parent != child && ValidName(child) && name == child + "0"
    ensures ValidName(name) && Less(child, name)
    ensures IsSubSymbol(parent, name) && parent != name && !IsSubSymbol(child, name)
  {
    assert name[..|parent|] == child[..|parent|] && name[|parent|] == child[|parent|];
    PrefixSortsFirst(child, name);
  }

  /** The name is probed at the last key under its parent. */
  lemma ProbedAt<V>(entries: seq<Entry<V>>, name: string, i: nat, last: nat)
    requires Sorted(entries) && ValidKeys(entries) && i < last < |entries|
    requires IsSubSymbol(entries[i].key, name) && entries[i].key != name && Less(entries[last].key, name)
    requires last + 1 < |entries| ==> !IsSubSymbol(entries[i].key, entries[last + 1].key)
    ensures UpperBound(entries, name) == last + 1
  {
    var k := UpperBound(entries, name);
    if k <= last {
      AfterUpperBound(entries, name, last);
      LessTotal(entries[last].key, name);
      assert false;
    }
    if k > last + 1 {
      LessTotal(entries[last + 1].key, name);
      BetweenParentAndChild(entries[i].key, entries[last + 1].key, name);
      assert false;
    }
  }

  /** What the insertion test decides under the invariant. */
  lemma InsertionTestMeans<V>(entries: seq<Entry<V>>, name: string)
    requires Sorted(entries) && ValidKeys(entries) && PrefixFree(entries) && ValidName(name) && entries != []
    ensures InsertionTest(entries, name) <==> !Conflicts(entries, name) || HiddenChild(entries, name)
  {
    var k := UpperBound(entries, name);
    if i :| 0 <= i < |entries| && IsSubSymbol(entries[i].key, name) {
      ProbedKeyUnderEveryMatch(entries, name, i);
      assert !InsertionTest(entries, name);
    } else if i :| 0 <= i < |entries| && IsSubSymbol(name, entries[i].key) {
      SuccessorUnderName(entries, name, i);
      if k == 0 {
        LessTotal(name, entries[0].key);
        if j :| 1 <= j < |entries| && IsSubSymbol(name, entries[j].key) {
          LessTransitive(name, entries[0].key, entries[1].key);
          if j > 1 {
            BetweenParentAndChild(name, entries[1].key, entries[j].key);
          }
        }
      } else {
        assert !Less(name, entries[0].key);
      }
    }
  }

  lemma InsertedKeepsOrder<V>(before: seq<Entry<V>>, entry: Entry<V>)
    requires Sorted(before) && ValidKeys(before) && ValidName(entry.key)
    requires forall i | 0 <= i < |before| :: before[i].key != entry.key
    ensures Sorted(Inserted(before, entry)) && ValidKeys(Inserted(before, entry))
  {
    var k, after := UpperBound(before, entry.key), Inserted(before, entry);
    forall i | 0 <= i < k ensures Less(before[i].key, entry.key) {
      LessTotal(before[i].key, entry.key);
    }
    forall i | k <= i < |before| ensures Less(entry.key, before[i].key) {
      AfterUpperBound(before, entry.key, i);
    }
    forall i, j | 0 <= i < j < |after| ensures Less(after[i].key, after[j].key) {
      if j == k {
        assert after[i] == before[i];
      } else if i == k {
        assert after[j] == before[j - 1];
      } else {
        assert after[i] == before[if i < k then i else i - 1];
        assert after[j] == before[if j < k then j else j - 1];
      }
    }
  }

  /** An insertion keeps the prefix-free invariant exactly when nothing conflicts with the new key. */
  lemma InsertedPrefixFree<V>(before: seq<Entry<V>>, entry: Entry<V>)
    requires PrefixFree(before)
    ensures PrefixFree(Inserted(before, entry)) <==> !Conflicts(before, entry.key)
  {
    var k, after := UpperBound(before, entry.key), Inserted(before, entry);
    if i :| 0 <= i < |before| && (IsSubSymbol(before[i].key, entry.key) || IsSubSymbol(entry.key, before[i].key)) {
      var at := if i < k then i else i + 1;
      assert after[at] == before[i] && after[k] == entry && at != k;
      assert !PrefixFree(after);
    } else {
      forall i, j | 0 <= i < |after| && 0 <= j < |after| && i != j
        ensures !IsSubSymbol(after[i].key, after[j].key)
      {
        var bi, bj := if i < k then i else i - 1, if j < k then j else j - 1;
        if i != k && j != k {
          assert after[i] == before[bi] && after[j] == before[bj] && bi != bj;
        } else if i == k {
          assert after[j] == before[bj];
        } else {
          assert after[i] == before[bi];
        }
      }
    }
  }

  /** A name that passes the insertion test is new. */
  lemma InsertionTestMeansNew<V>(entries: seq<Entry<V>>, name: string, i: nat)
    requires Sorted(entries) && ValidKeys(entries)
    requires entries != [] && InsertionTest(entries, name) && i < |entries|
    ensures entries[i].key != name
  {
    if entries[i].key == name {
      ProbedKeyUnderEveryMatch(entries, name, i);
      assert false;
    }
  }

  /** Whether an insertion of `name` goes through. */
  predicate Accepts<V>(entries: seq<Entry<V>>, name: string) {
    ValidName(name) && (entries == [] || InsertionTest(entries, name))
  }

  /** The map after a run of insertions, refused ones included. */
  function AddAll<V>(entries: seq<Entry<V>>, adds: seq<Entry<V>>): seq<Entry<V>>
    decreases |adds|
  {
    if adds == [] then entries
    else AddAll(if Accepts(entries, adds[0].key) then Inserted(entries, adds[0]) else entries, adds[1..])
  }

  /** No insertion of the run is accepted while it hides a child. */
  ghost predicate NeverHidesChild<V>(entries: seq<Entry<V>>, adds: seq<Entry<V>>)
    decreases |adds|
  {
    adds == [] ||
    if Accepts(entries, adds[0].key)
    then !HiddenChild(entries, adds[0].key) && NeverHidesChild(Inserted(entries, adds[0]), adds[1..])
    else NeverHidesChild(entries, adds[1..])
  }

  /** Whether an insertion is accepted, and what it then does to the invariant. */
  lemma AcceptsMeans<V>(entries: seq<Entry<V>>, add: Entry<V>)
    requires Sorted(entries) && ValidKeys(entries)
    ensures Accepts(entries, add.key) ==> Sorted(Inserted(entries, add)) && ValidKeys(Inserted(entries, add))
    ensures PrefixFree(entries) ==>
      (Accepts(entries, add.key) <==>
        ValidName(add.key) && (!Conflicts(entries, add.key) || HiddenChild(entries, add.key)))
    ensures PrefixFree(entries) && Accepts(entries, add.key) ==>
      (PrefixFree(Inserted(entries, add)) <==> !HiddenChild(entries, add.key))
    ensures !PrefixFree(entries) ==> !PrefixFree(Inserted(entries, add))
  {
    if Accepts(entries, add.key) {
      forall i | 0 <= i < |entries| ensures entries[i].key != add.key {
        InsertionTestMeansNew(entries, add.key, i);
      }
      InsertedKeepsOrder(entries, add);
    }
    if PrefixFree(entries) {
      InsertedPrefixFree(entries, add);
      if ValidName(add.key) && entries != [] {
        InsertionTestMeans(entries, add.key);
      }
    } else {
      InsertedKeepsViolations(entries, add);
    }
  }

  lemma InsertedKeepsViolations<V>(before: seq<Entry<V>>, entry: Entry<V>)
    requires !PrefixFree(before)
    ensures !PrefixFree(Inserted(before, entry))
  {
    var i, j :| 0 <= i < |before| && 0 <= j < |before| && i != j && IsSubSymbol(before[i].key, before[j].key);
    var k, after := UpperBound(before, entry.key), Inserted(before, entry);
    var ai, aj := if i < k then i else i + 1, if j < k then j else j + 1;
    assert after[ai] == before[i] && after[aj] == before[j] && ai != aj;
  }

  /** Over every run of insertions: all lookups of valid names are right at the end exactly
      when no accepted insertion hid a child on the way. */
  lemma {:induction false} RunKeepsLookupsRight<V>(entries: seq<Entry<V>>, adds: seq<Entry<V>>)
    requires Sorted(entries) && ValidKeys(entries)
    ensures Sorted(AddAll(entries, adds)) && ValidKeys(AddAll(entries, adds))
    ensures PrefixFree(AddAll(entries, adds)) <==> PrefixFree(entries) && NeverHidesChild(entries, adds)
    ensures PrefixFree(entries) ==>
      (NeverHidesChild(entries, adds) <==> FindsEveryName(AddAll(entries, adds)))
    decreases |adds|
  {
    if adds != [] {
      AcceptsMeans(entries, adds[0]);
      RunKeepsLookupsRight(if Accepts(entries, adds[0].key) then Inserted(entries, adds[0]) else entries, adds[1..]);
    }
    ProbeCompleteIffPrefixFree(AddAll(entries, adds));
  }

  /** "a" is accepted after "a.b", and then a lookup of "a.c" misses its parent "a". */
  lemma HiddenChildBreaksLookup<V>(b: V, a: V)
    ensures AddAll([], [Entry("a.b", b), Entry("a", a)]) == [Entry("a", a), Entry("a.b", b)]
    ensures LinearSearch([Entry("a", a), Entry("a.b", b)], "a.c") == Some(a)
    ensures Probe([Entry("a", a), Entry("a.b", b)], "a.c") == None
  {
    var first, second := Entry("a.b", b), Entry("a", a);
    assert Less("a", "a.b") && !Less("a.b", "a") by { PrefixSortsFirst("a", "a.b"); LessTotal("a", "a.b"); }
    assert Less("b", "c") && Less(".b", ".c") && Less("a.b", "a.c") by {
      assert ".b"[1..] == "b" && ".c"[1..] == "c";
      assert "a.b"[1..] == ".b" && "a.c"[1..] == ".c";
    }
    assert !Less("a.c", "a.b") && !Less("a.c", "a") by {
      LessTotal("a.b", "a.c");
      PrefixSortsFirst("a", "a.c");
      LessTotal("a", "a.c");
    }
    assert UpperBound([second, first], "a.c") == 2 by {
      assert [second, first][1..] == [first] && [first][1..] == [];
    }
    assert [first, second][1..] == [second] && [second][1..] == [];
    assert Inserted([], first) == [first];
    assert Inserted([first], second) == [second, first];
    assert Accepts<V>([], "a.b") && Accepts([first], "a");
    assert AddAll([], [first, second]) == AddAll([first], [second]) == AddAll([second, first], []);
  }

  class DescriptorIndex<V> {
    var bySymbol: seq<Entry<V>>

    /** What every reachable index satisfies, with or without the prefix-free invariant. */
    ghost predicate Valid()
      reads this
    {
      Sorted(bySymbol) && ValidKeys(bySymbol)
    }

    constructor ()
      ensures Valid() && bySymbol == []
    {
      bySymbol := [];
    }

    /** The last entry whose key is at most `name`, or the first entry when there is none. */
    method FindLastLessOrEqual(name: string) returns (iter: nat)
      requires Valid()
      ensures iter <= |bySymbol| && (iter == |bySymbol| <==> bySymbol == [])
      ensures forall i | 0 <= i < |bySymbol| ::
        Less(name, bySymbol[i].key) <==> i > iter || (i == 0 && iter == 0 && Less(name, bySymbol[0].key))
      ensures iter == if UpperBound(bySymbol, name) == 0 then 0 else UpperBound(bySymbol, name) - 1
    {
      iter := UpperBound(bySymbol, name);
      forall i | iter <= i < |bySymbol| ensures Less(name, bySymbol[i].key) {
        AfterUpperBound(bySymbol, name, i);
      }
      if iter != 0 {
        iter := iter - 1;
      }
    }

    method FindSymbol(name: string) returns (r: Option<V>)
      requires Valid()
      ensures r == Probe(bySymbol, name)
      ensures PrefixFree(bySymbol) ==> r == LinearSearch(bySymbol, name)
      ensures r.Some? ==> exists i | 0 <= i < |bySymbol| ::
        r.value == bySymbol[i].value && (bySymbol[i].key == name || bySymbol[i].key + "." <= name)
      ensures PrefixFree(bySymbol) ==> (r.None? <==> forall i | 0 <= i < |bySymbol| ::
        bySymbol[i].key != name && !(bySymbol[i].key + "." <= name))
    {
      forall i | 0 <= i < |bySymbol|
        ensures IsSubSymbol(bySymbol[i].key, name) <==> bySymbol[i].key == name || bySymbol[i].key + "." <= name
      {
        SubSymbolMeans(bySymbol[i].key, name);
      }
      var iter := FindLastLessOrEqual(name);
      if iter != |bySymbol| && IsSubSymbol(bySymbol[iter].key, name) {
        r := Some(bySymbol[iter].value);
      } else {
        r := None;
      }
      if PrefixFree(bySymbol) {
        ProbeIsLinearSearch(bySymbol, name);
      }
    }

    method AddSymbol(name: string, value: V) returns (ok: bool)
      requires Valid()
      modifies this
      ensures Valid()
      ensures ok <==> Accepts(old(bySymbol), name)
      ensures old(bySymbol) == [] ==> (ok <==> forall i | 0 <= i < |name| ::
        var c := name[i] as int;
        c == 46 || 48 <= c <= 57 || 65 <= c <= 90 || c == 95 || 97 <= c <= 122)
      ensures ok && old(bySymbol) == [] ==> bySymbol == [Entry(name, value)]
      ensures !ok ==> bySymbol == old(bySymbol)
      ensures ok ==> ValidName(name) && bySymbol == Inserted(old(bySymbol), Entry(name, value))
      ensures old(PrefixFree(bySymbol)) ==>
        && (ok <==> ValidName(name) && (!Conflicts(old(bySymbol), name) || HiddenChild(old(bySymbol), name)))
        && (PrefixFree(bySymbol) <==> !(ok && HiddenChild(old(bySymbol), name)))
    {
      if !ValidName(name) {
        return false;
      }
      AcceptsMeans(bySymbol, Entry(name, value));
      var iter := FindLastLessOrEqual(name);
      if iter == |bySymbol| {
        bySymbol := [Entry(name, value)];
        return true;
      }
      if IsSubSymbol(bySymbol[iter].key, name) {
        return false;
      }
      iter := iter + 1;
      if iter != |bySymbol| && IsSubSymbol(name, bySymbol[iter].key) {
        return false;
      }
      bySymbol := Inserted(bySymbol, Entry(name, value));
      ok := true;
    }
  }
}
