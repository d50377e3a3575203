/** A file's index of fields by their lowercase and camelcase names. While the file is built
    only conflicting names are stored; the rest is filled in at the first lookup, from the
    index by number, in whatever order that hash map is walked. */
module LazyNames {
  import opened Options

  datatype Field = Field(id: nat, parent: nat, lowercase: string, camelcase: string, container: nat, number: int)

  datatype Style = Lowercase | Camelcase

  type Key = (nat, string)

  type Index = map<Key, Field>

  function KeyOf(f: Field, style: Style): Key {
    (f.parent, if style == Lowercase then f.lowercase else f.camelcase)
  }

  // ---------------------------------------------------------------- the eager and the stored index

  /** The index as if every field were entered at once: the first of a name wins. */
  function Eager(fields: seq<Field>, style: Style): Index {
    if fields == [] then map[]
    else
      var last := fields[|fields| - 1];
      var before := Eager(fields[..|fields| - 1], style);
      if KeyOf(last, style) in before then before else before[KeyOf(last, style) := last]
  }

  /** What is stored while building: names that came twice, with their first field. */
  function Stored(fields: seq<Field>, style: Style): Index {
    if fields == [] then map[]
    else
      var front, key := fields[..|fields| - 1], KeyOf(fields[|fields| - 1], style);
      var stored, before := Stored(front, style), Eager(front, style);
      if key in before && key !in stored then stored[key := before[key]] else stored
  }

  /** Two fields share the name. */
  ghost predicate Conflicting(fields: seq<Field>, style: Style, key: Key) {
    exists i, j :: 0 <= i < j < |fields| && KeyOf(fields[i], style) == key && KeyOf(fields[j], style) == key
  }

  /** The first field with the name is at `i`. */
  ghost predicate FirstAt(fields: seq<Field>, style: Style, key: Key, i: nat) {
    && i < |fields| && KeyOf(fields[i], style) == key
    && forall j | 0 <= j < i :: KeyOf(fields[j], style) != key
  }

  lemma {:induction false} EagerMeans(fields: seq<Field>, style: Style)
    ensures forall key ::
      key in Eager(fields, style) <==> exists i :: 0 <= i < |fields| && KeyOf(fields[i], style) == key
    ensures forall key, i: nat | FirstAt(fields, style, key, i) ::
      key in Eager(fields, style) && Eager(fields, style)[key] == fields[i]
    decreases |fields|
  {
    hide KeyOf;
    if fields != [] {
      var n := |fields| - 1;
      var front, last := fields[..n], fields[n];
      EagerMeans(front, style);
      assert forall i | 0 <= i < n :: front[i] == fields[i];
      forall key
        ensures key in Eager(fields, style) <==> exists i :: 0 <= i < |fields| && KeyOf(fields[i], style) == key
      {
        if key in Eager(front, style) {
          var i :| 0 <= i < n && KeyOf(front[i], style) == key;
          assert KeyOf(fields[i], style) == key;
        }
        if key !in Eager(fields, style) {
          assert KeyOf(last, style) != key;
          assert forall i | 0 <= i < n :: KeyOf(front[i], style) != key;
        }
      }
      forall key, i: nat | FirstAt(fields, style, key, i)
        ensures key in Eager(fields, style) && Eager(fields, style)[key] == fields[i]
      {
        if i < n {
          assert FirstAt(front, style, key, i);
        } else {
          assert forall j | 0 <= j < n :: KeyOf(front[j], style) != key;
        }
      }
    }
  }

  /** The first field of `parent` with this lowercase name is at `i`. */
  ghost predicate FirstLowercase(fields: seq<Field>, parent: nat, name: string, i: nat) {
    && i < |fields| && fields[i].parent == parent && fields[i].lowercase == name
    && forall j | 0 <= j < i :: fields[j].parent != parent || fields[j].lowercase != name
  }

  ghost predicate FirstCamelcase(fields: seq<Field>, parent: nat, name: string, i: nat) {
    && i < |fields| && fields[i].parent == parent && fields[i].camelcase == name
    && forall j | 0 <= j < i :: fields[j].parent != parent || fields[j].camelcase != name
  }

  lemma {:induction false} FirstExists(fields: seq<Field>, style: Style, key: Key, k: nat)
    requires k < |fields| && KeyOf(fields[k], style) == key
    ensures exists i: nat :: FirstAt(fields, style, key, i)
    decreases k
  {
    hide KeyOf;
    if j: nat :| j < k && KeyOf(fields[j], style) == key {
      FirstExists(fields, style, key, j);
    } else {
      assert FirstAt(fields, style, key, k);
    }
  }

  lemma FirstAtMeans(fields: seq<Field>, parent: nat, name: string, i: nat)
    ensures FirstAt(fields, Lowercase, (parent, name), i) <==> FirstLowercase(fields, parent, name, i)
    ensures FirstAt(fields, Camelcase, (parent, name), i) <==> FirstCamelcase(fields, parent, name, i)
  {
  }

  /** The eager index has the name exactly when a field of that parent has it, in that style,
      and maps it to the first one. */
  lemma EagerIsFirst(fields: seq<Field>, parent: nat, name: string)
    ensures (parent, name) in Eager(fields, Lowercase) <==>
      exists f :: f in fields && f.parent == parent && f.lowercase == name
    ensures (parent, name) in Eager(fields, Camelcase) <==>
      exists f :: f in fields && f.parent == parent && f.camelcase == name
    ensures forall i: nat | FirstLowercase(fields, parent, name, i) ::
      (parent, name) in Eager(fields, Lowercase) && Eager(fields, Lowercase)[(parent, name)] == fields[i]
    ensures forall i: nat | FirstCamelcase(fields, parent, name, i) ::
      (parent, name) in Eager(fields, Camelcase) && Eager(fields, Camelcase)[(parent, name)] == fields[i]
  {
    hide Eager;
    EagerMeans(fields, Lowercase);
    EagerMeans(fields, Camelcase);
    forall i: nat
      ensures FirstAt(fields, Lowercase, (parent, name), i) <==> FirstLowercase(fields, parent, name, i)
      ensures FirstAt(fields, Camelcase, (parent, name), i) <==> FirstCamelcase(fields, parent, name, i)
    {
      FirstAtMeans(fields, parent, name, i);
    }
  }

  lemma {:induction false} StoredMeans(fields: seq<Field>, style: Style)
    ensures forall key :: key in Stored(fields, style) <==> Conflicting(fields, style, key)
    ensures forall key | key in Stored(fields, style) ::
      key in Eager(fields, style) && Stored(fields, style)[key] == Eager(fields, style)[key]
    decreases |fields|
  {
    hide KeyOf;
    if fields != [] {
      var n := |fields| - 1;
      var front, last := fields[..n], fields[n];
      StoredMeans(front, style);
      EagerMeans(front, style);
      hide Eager;
      assert forall i | 0 <= i < n :: front[i] == fields[i];
      EagerGrows(fields, style);
      forall key ensures key in Stored(fields, style) <==> Conflicting(fields, style, key) {
        ConflictStep(fields, style, key);
      }
    } else {
      assert forall key :: !Conflicting(fields, style, key);
    }
  }

  lemma EagerGrows(fields: seq<Field>, style: Style)
    requires fields != []
    ensures forall key | key in Eager(fields[..|fields| - 1], style) ::
      key in Eager(fields, style) && Eager(fields, style)[key] == Eager(fields[..|fields| - 1], style)[key]
  {
    hide KeyOf;
  }

  lemma ConflictStep(fields: seq<Field>, style: Style, key: Key)
    requires fields != []
    ensures var n := |fields| - 1;
      var front := fields[..n];
      Conflicting(fields, style, key) <==>
        Conflicting(front, style, key) ||
        (KeyOf(fields[n], style) == key && exists i :: 0 <= i < n && KeyOf(front[i], style) == key)
  {
    hide KeyOf;
    var n := |fields| - 1;
    var front := fields[..n];
    assert forall i | 0 <= i < n :: front[i] == fields[i];
    if Conflicting(fields, style, key) {
      var i, j :| 0 <= i < j < |fields| && KeyOf(fields[i], style) == key && KeyOf(fields[j], style) == key;
      assert KeyOf(front[i], style) == key;
      assert j < n ==> KeyOf(front[j], style) == key;
    }
    if Conflicting(front, style, key) {
      var i, j :| 0 <= i < j < n && KeyOf(front[i], style) == key && KeyOf(front[j], style) == key;
      assert KeyOf(fields[i], style) == key && KeyOf(fields[j], style) == key;
    }
    if exists i :: 0 <= i < n && KeyOf(front[i], style) == key && KeyOf(fields[n], style) == key {
      var i :| 0 <= i < n && KeyOf(front[i], style) == key && KeyOf(fields[n], style) == key;
      assert KeyOf(fields[i], style) == key;
    }
  }

  // ---------------------------------------------------------------- completing the index

  /** A stored index filled in from some fields, in an order that is not known: nothing stored
      is replaced, and each other name goes to one of the fields that have it. */
  ghost predicate Completes(stored: Index, accepted: set<Field>, style: Style, full: Index) {
    && (forall key | key in stored :: key in full && full[key] == stored[key])
    && (forall f | f in accepted :: KeyOf(f, style) in full)
    && (forall key | key in full && key !in stored :: full[key] in accepted && KeyOf(full[key], style) == key)
  }

  /** The field is the only one with its name. */
  ghost predicate Alone(fields: seq<Field>, style: Style, i: nat)
    requires i < |fields|
  {
    forall j | 0 <= j < |fields| && j != i :: KeyOf(fields[j], style) != KeyOf(fields[i], style)
  }

  lemma AloneInEager(fields: seq<Field>, style: Style, i: nat)
    requires i < |fields| && Alone(fields, style, i)
    ensures KeyOf(fields[i], style) in Eager(fields, style) &&
      Eager(fields, style)[KeyOf(fields[i], style)] == fields[i]
    ensures !Conflicting(fields, style, KeyOf(fields[i], style))
  {
    hide KeyOf;
    EagerMeans(fields, style);
    assert FirstAt(fields, style, KeyOf(fields[i], style), i);
  }

  lemma NotConflictingAlone(fields: seq<Field>, style: Style, i: nat)
    requires i < |fields| && !Conflicting(fields, style, KeyOf(fields[i], style))
    ensures Alone(fields, style, i)
  {
    hide KeyOf;
  }

  /** Whatever order the fields came in, a completed index says the same: each name that is in it
      has the field that was entered first. */
  lemma CompletionAgrees(fields: seq<Field>, accepted: set<Field>, style: Style, full: Index)
    requires Completes(Stored(fields, style), accepted, style, full)
    requires forall f | f in accepted :: f in fields
    ensures forall key | key in full :: key in Eager(fields, style) && full[key] == Eager(fields, style)[key]
  {
    hide KeyOf, Eager, Stored, Conflicting, Alone;
    StoredMeans(fields, style);
    forall key | key in full && key !in Stored(fields, style)
      ensures key in Eager(fields, style) && full[key] == Eager(fields, style)[key]
    {
      var f := full[key];
      var i :| 0 <= i < |fields| && fields[i] == f;
      NotConflictingAlone(fields, style, i);
      AloneInEager(fields, style, i);
    }
  }

  /** The completed index is the eager one exactly when every field whose name is its own was
      accepted by number; fields that share a name need not be. */
  lemma LazyIsEagerIff(fields: seq<Field>, accepted: set<Field>, style: Style, full: Index)
    requires Completes(Stored(fields, style), accepted, style, full)
    requires forall f | f in accepted :: f in fields
    ensures full == Eager(fields, style) <==>
      forall i | 0 <= i < |fields| && Alone(fields, style, i) :: fields[i] in accepted
  {
    hide KeyOf, Eager, Stored, Conflicting, Alone;
    var eager := Eager(fields, style);
    StoredMeans(fields, style);
    CompletionAgrees(fields, accepted, style, full);
    EagerKeys(fields, style);
    if full == eager {
      forall i | 0 <= i < |fields| && Alone(fields, style, i) ensures fields[i] in accepted {
        AloneInEager(fields, style, i);
      }
    }
    if forall i | 0 <= i < |fields| && Alone(fields, style, i) :: fields[i] in accepted {
      forall key | key in eager ensures key in full {
        if key !in Stored(fields, style) {
          var i :| 0 <= i < |fields| && KeyOf(fields[i], style) == key;
          NotConflictingAlone(fields, style, i);
        }
      }
      assert full.Keys == eager.Keys;
    }
  }

  /** A completed index has a name exactly when two fields share it or one accepted by number
      has it, and then gives the first field with it. */
  lemma FoundMeans(fields: seq<Field>, accepted: set<Field>, style: Style, full: Index, key: Key)
    requires Completes(Stored(fields, style), accepted, style, full)
    requires forall f | f in accepted :: f in fields
    ensures key in full <==>
      Conflicting(fields, style, key) || exists f :: f in accepted && KeyOf(f, style) == key
    ensures key in full ==> exists i: nat :: FirstAt(fields, style, key, i) && full[key] == fields[i]
  {
    hide KeyOf, Eager, Stored, Alone;
    StoredMeans(fields, style);
    CompletionAgrees(fields, accepted, style, full);
    EagerMeans(fields, style);
    if key in full {
      var k: nat :| k < |fields| && KeyOf(fields[k], style) == key;
      FirstExists(fields, style, key, k);
    }
  }

  lemma EagerKeys(fields: seq<Field>, style: Style)
    ensures forall key ::
      key in Eager(fields, style) <==> exists i :: 0 <= i < |fields| && KeyOf(fields[i], style) == key
  {
    EagerMeans(fields, style);
  }

  /** One more field in both indexes. */
  lemma EnteredNext(fields: seq<Field>, field: Field, style: Style)
    ensures var key, eager, stored := KeyOf(field, style), Eager(fields, style), Stored(fields, style);
      && Eager(fields + [field], style) == (if key in eager then eager else eager[key := field])
      && Stored(fields + [field], style) ==
        (if key in eager && key !in stored then stored[key := eager[key]] else stored)
  {
    hide KeyOf;
    assert (fields + [field])[..|fields|] == fields;
  }

  lemma LowercaseMeans(fields: seq<Field>, accepted: set<Field>, full: Index, parent: nat, name: string)
    requires Completes(Stored(fields, Lowercase), accepted, Lowercase, full)
    requires forall f | f in accepted :: f in fields
    ensures (parent, name) in full <==>
      || (exists f :: f in accepted && f.parent == parent && f.lowercase == name)
      || exists i, j :: 0 <= i < j < |fields| && fields[i].parent == fields[j].parent == parent
          && fields[i].lowercase == fields[j].lowercase == name
    ensures (parent, name) in full ==>
      exists i: nat :: FirstLowercase(fields, parent, name, i) && full[(parent, name)] == fields[i]
  {
    hide Eager, Stored, Completes;
    FoundMeans(fields, accepted, Lowercase, full, (parent, name));
    if (parent, name) in full {
      var i: nat :| FirstAt(fields, Lowercase, (parent, name), i) && full[(parent, name)] == fields[i];
      FirstAtMeans(fields, parent, name, i);
    }
  }

  lemma CamelcaseMeans(fields: seq<Field>, accepted: set<Field>, full: Index, parent: nat, name: string)
    requires Completes(Stored(fields, Camelcase), accepted, Camelcase, full)
    requires forall f | f in accepted :: f in fields
    ensures (parent, name) in full <==>
      || (exists f :: f in accepted && f.parent == parent && f.camelcase == name)
      || exists i, j :: 0 <= i < j < |fields| && fields[i].parent == fields[j].parent == parent
          && fields[i].camelcase == fields[j].camelcase == name
    ensures (parent, name) in full ==>
      exists i: nat :: FirstCamelcase(fields, parent, name, i) && full[(parent, name)] == fields[i]
  {
    hide Eager, Stored, Completes;
    FoundMeans(fields, accepted, Camelcase, full, (parent, name));
    if (parent, name) in full {
      var i: nat :| FirstAt(fields, Camelcase, (parent, name), i) && full[(parent, name)] == fields[i];
      FirstAtMeans(fields, parent, name, i);
    }
  }

  // ---------------------------------------------------------------- the tables

  class FileTables {
    var byNumber: map<(nat, int), Field>
    var byLowercase: Index
    var byCamelcase: Index
    var lowercaseTmp: Index
    var camelcaseTmp: Index
    var lowercaseDone: bool
    var camelcaseDone: bool
    /** The fields entered so far, in order. */
    ghost var fields: seq<Field>

    ghost predicate Valid()
      reads this
    {
      && (!lowercaseDone ==> byLowercase == Stored(fields, Lowercase))
      && (!camelcaseDone ==> byCamelcase == Stored(fields, Camelcase))
      && (forall n | n in byNumber :: byNumber[n] in fields)
      && (lowercaseDone ==> Completes(Stored(fields, Lowercase), byNumber.Values, Lowercase, byLowercase))
      && (camelcaseDone ==> Completes(Stored(fields, Camelcase), byNumber.Values, Camelcase, byCamelcase))
    }

    /** While the file is being built, the temporary maps are the eager index. */
    ghost predicate Building()
      reads this
    {
      && Valid() && !lowercaseDone && !camelcaseDone
      && lowercaseTmp == Eager(fields, Lowercase) && camelcaseTmp == Eager(fields, Camelcase)
    }

    constructor ()
      ensures Building() && fields == [] && byNumber == map[]
    {
      byNumber, byLowercase, byCamelcase, lowercaseTmp, camelcaseTmp := map[], map[], map[], map[], map[];
      lowercaseDone, camelcaseDone := false, false;
      fields := [];
    }

    method AddFieldByStylizedNames(field: Field)
      requires Building()
      modifies this
      ensures Building() && fields == old(fields) + [field] && byNumber == old(byNumber)
    {
      hide KeyOf, Eager, Stored;
      EnteredNext(fields, field, Lowercase);
      EnteredNext(fields, field, Camelcase);
      var lowercase := KeyOf(field, Lowercase);
      if lowercase !in lowercaseTmp {
        lowercaseTmp := lowercaseTmp[lowercase := field];
      } else if lowercase !in byLowercase {
        byLowercase := byLowercase[lowercase := lowercaseTmp[lowercase]];
      }
      var camelcase := KeyOf(field, Camelcase);
      if camelcase !in camelcaseTmp {
        camelcaseTmp := camelcaseTmp[camelcase := field];
      } else if camelcase !in byCamelcase {
        byCamelcase := byCamelcase[camelcase := camelcaseTmp[camelcase]];
      }
      fields := fields + [field];
    }

    method AddFieldByNumber(field: Field) returns (ok: bool)
      requires Building() && field in fields
      modifies this`byNumber
      ensures Building() && (ok <==> (field.container, field.number) !in old(byNumber))
      ensures byNumber == if ok then old(byNumber)[(field.container, field.number) := field] else old(byNumber)
    {
      hide Stored, Eager;
      ok := (field.container, field.number) !in byNumber;
      if ok {
        byNumber := byNumber[(field.container, field.number) := field];
      }
    }

    method FinalizeTables()
      requires Building()
      modifies this`lowercaseTmp, this`camelcaseTmp
      ensures Valid()
    {
      lowercaseTmp, camelcaseTmp := map[], map[];
    }

    /** Enters every field accepted by number, in any order, under the names still free. */
    method Complete(stored: Index, style: Style) returns (full: Index)
      ensures Completes(stored, byNumber.Values, style, full)
    {
      hide KeyOf;
      full := stored;
      var todo := byNumber.Keys;
      while todo != {}
        invariant todo <= byNumber.Keys
        invariant forall key | key in stored :: key in full && full[key] == stored[key]
        invariant forall n | n in byNumber && n !in todo :: KeyOf(byNumber[n], style) in full
        invariant forall key | key in full && key !in stored ::
          full[key] in byNumber.Values && KeyOf(full[key], style) == key
        decreases |todo|
      {
        var n :| n in todo;
        if KeyOf(byNumber[n], style) !in full {
          full := full[KeyOf(byNumber[n], style) := byNumber[n]];
        }
        todo := todo - {n};
      }
    }

    method FindFieldByLowercaseName(parent: nat, name: string) returns (found: Option<Field>)
      requires Valid()
      modifies this`byLowercase, this`lowercaseDone
      ensures Valid() && lowercaseDone
      ensures found.Some? ==> exists i: nat :: FirstLowercase(fields, parent, name, i) && found.value == fields[i]
      ensures found.Some? ==> found.value in fields && found.value.parent == parent && found.value.lowercase == name
      ensures found.Some? <==>
        || (exists f :: f in byNumber.Values && f.parent == parent && f.lowercase == name)
        || exists i, j :: 0 <= i < j < |fields| && fields[i].parent == fields[j].parent == parent
            && fields[i].lowercase == fields[j].lowercase == name
      ensures found.Some? ==>
        (parent, name) in Eager(fields, Lowercase) && found.value == Eager(fields, Lowercase)[(parent, name)]
      ensures AllAccepted(fields, byNumber.Values, Lowercase) ==>
        found == Lookup(Eager(fields, Lowercase), (parent, name))
    {
      hide KeyOf, Stored, Eager, Alone, Completes;
      if !lowercaseDone {
        byLowercase := Complete(byLowercase, Lowercase);
        lowercaseDone := true;
      }
      CompletionAgrees(fields, byNumber.Values, Lowercase, byLowercase);
      LazyIsEagerIff(fields, byNumber.Values, Lowercase, byLowercase);
      LowercaseMeans(fields, byNumber.Values, byLowercase, parent, name);
      found := Lookup(byLowercase, (parent, name));
    }

    method FindFieldByCamelcaseName(parent: nat, name: string) returns (found: Option<Field>)
      requires Valid()
      modifies this`byCamelcase, this`camelcaseDone
      ensures Valid() && camelcaseDone
      ensures found.Some? ==> exists i: nat :: FirstCamelcase(fields, parent, name, i) && found.value == fields[i]
      ensures found.Some? ==> found.value in fields && found.value.parent == parent && found.value.camelcase == name
      ensures found.Some? <==>
        || (exists f :: f in byNumber.Values && f.parent == parent && f.camelcase == name)
        || exists i, j :: 0 <= i < j < |fields| && fields[i].parent == fields[j].parent == parent
            && fields[i].camelcase == fields[j].camelcase == name
      ensures found.Some? ==>
        (parent, name) in Eager(fields, Camelcase) && found.value == Eager(fields, Camelcase)[(parent, name)]
      ensures AllAccepted(fields, byNumber.Values, Camelcase) ==>
        found == Lookup(Eager(fields, Camelcase), (parent, name))
    {
      hide KeyOf, Stored, Eager, Alone, Completes;
      if !camelcaseDone {
        byCamelcase := Complete(byCamelcase, Camelcase);
        camelcaseDone := true;
      }
      CompletionAgrees(fields, byNumber.Values, Camelcase, byCamelcase);
      LazyIsEagerIff(fields, byNumber.Values, Camelcase, byCamelcase);
      CamelcaseMeans(fields, byNumber.Values, byCamelcase, parent, name);
      found := Lookup(byCamelcase, (parent, name));
    }
  }

  function Lookup(index: Index, key: Key): Option<Field> {
    if key in index then Some(index[key]) else None
  }

  ghost predicate AllAccepted(fields: seq<Field>, accepted: set<Field>, style: Style) {
    forall i | 0 <= i < |fields| && Alone(fields, style, i) :: fields[i] in accepted
  }
}
