/** Linking the fields of a message to its oneofs: one pass counts, one allocates an array for
    each oneof, one fills the arrays. A field is named by its place in the message. */
module Oneofs {
  import opened Options

  datatype Error = NotConsecutive(before: nat) | NoFields(oneof: nat)

  /** For each field, the oneof that contains it. */
  type Containing = seq<Option<nat>>

  /** The fields of a oneof among the first `n`, in declaration order. */
  function FieldsOf(containing: Containing, n: nat, o: nat): (fields: seq<nat>)
    requires n <= |containing|
    ensures |fields| <= n
  {
    if n == 0 then []
    else FieldsOf(containing, n - 1, o) + if containing[n - 1] == Some(o) then [n - 1] else []
  }

  lemma {:induction false} FieldsOfMembers(containing: Containing, n: nat, o: nat)
    requires n <= |containing|
    ensures forall i :: i in FieldsOf(containing, n, o) <==> 0 <= i < n && containing[i] == Some(o)
  {
    if n > 0 {
      FieldsOfMembers(containing, n - 1, o);
    }
  }

  lemma {:induction false} FieldsOfMeans(containing: Containing, n: nat, o: nat)
    requires n <= |containing|
    ensures forall i :: i in FieldsOf(containing, n, o) <==> 0 <= i < n && containing[i] == Some(o)
    ensures forall a, b | 0 <= a < b < |FieldsOf(containing, n, o)| ::
      FieldsOf(containing, n, o)[a] < FieldsOf(containing, n, o)[b]
  {
    FieldsOfMembers(containing, n, o);
    if n > 0 {
      FieldsOfMeans(containing, n - 1, o);
      var before := FieldsOf(containing, n - 1, o);
      assert forall a | 0 <= a < |before| :: before[a] in before && before[a] < n - 1;
    }
  }

  lemma FieldsOfStep(containing: Containing, i: nat)
    requires i < |containing|
    ensures forall o: nat ::
      FieldsOf(containing, i + 1, o) == FieldsOf(containing, i, o) + if containing[i] == Some(o) then [i] else []
  {
  }

  lemma {:induction false} FieldsOfPrefix(containing: Containing, m: nat, n: nat, o: nat)
    requires m <= n <= |containing|
    ensures FieldsOf(containing, m, o) <= FieldsOf(containing, n, o)
  {
    if m < n {
      FieldsOfPrefix(containing, m, n - 1, o);
    }
  }

  /** The field comes after one of its oneof, but not right after. */
  predicate Interrupts(containing: Containing, i: nat)
    requires i < |containing|
  {
    containing[i].Some? && FieldsOf(containing, i, containing[i].value) != [] && containing[i - 1] != containing[i]
  }

  function Interruptions(containing: Containing, n: nat): seq<Error>
    requires n <= |containing|
  {
    if n == 0 then []
    else Interruptions(containing, n - 1) + if Interrupts(containing, n - 1) then [NotConsecutive(n - 2)] else []
  }

  function Empties(containing: Containing, n: nat): seq<Error> {
    if n == 0 then []
    else Empties(containing, n - 1) + if FieldsOf(containing, |containing|, n - 1) == [] then [NoFields(n - 1)] else []
  }

  /** No field of another oneof, and none outside all oneofs, stands between two of this one. */
  ghost predicate OneRun(containing: Containing, o: nat) {
    forall a, b, c :: !Gap(containing, o, a, b, c)
  }

  predicate Gap(containing: Containing, o: nat, a: int, b: int, c: int) {
    && 0 <= a < b < c < |containing|
    && containing[a] == Some(o) && containing[c] == Some(o) && containing[b] != Some(o)
  }

  lemma {:induction false} InterruptionsMean(containing: Containing, n: nat)
    requires n <= |containing|
    ensures Interruptions(containing, n) == [] <==> forall i | 0 <= i < n :: !Interrupts(containing, i)
  {
    hide Interrupts;
    if n > 0 {
      InterruptionsMean(containing, n - 1);
    }
  }

  /** In a gap between two fields of a oneof, some field interrupts. */
  lemma {:induction false} GapInterrupts(containing: Containing, o: nat, a: nat, b: nat, c: nat)
    requires Gap(containing, o, a, b, c)
    ensures exists i :: 0 <= i < |containing| && Interrupts(containing, i)
    decreases c - b
  {
    if containing[b + 1] == Some(o) {
      FieldsOfMeans(containing, b + 1, o);
      assert a in FieldsOf(containing, b + 1, o);
      assert Interrupts(containing, b + 1);
    } else {
      GapInterrupts(containing, o, a, b + 1, c);
    }
  }

  /** The consecutiveness error is absent exactly when the fields of every oneof are one run. */
  lemma ConsecutiveIffOneRun(containing: Containing)
    ensures Interruptions(containing, |containing|) == [] <==> forall o: nat :: OneRun(containing, o)
  {
    hide Interruptions, Interrupts;
    InterruptionsMean(containing, |containing|);
    if forall o: nat :: OneRun(containing, o) {
      forall i | 0 <= i < |containing| ensures !Interrupts(containing, i) {
        RunsDoNotInterrupt(containing, i);
      }
    } else {
      var o: nat :| !OneRun(containing, o);
      var a, b, c :| Gap(containing, o, a, b, c);
      GapInterrupts(containing, o, a, b, c);
    }
  }

  lemma RunsDoNotInterrupt(containing: Containing, i: nat)
    requires i < |containing| && forall o: nat :: OneRun(containing, o)
    ensures !Interrupts(containing, i)
  {
    if containing[i].Some? {
      var o := containing[i].value;
      var before := FieldsOf(containing, i, o);
      FieldsOfMeans(containing, i, o);
      if before != [] {
        var a := before[0];
        assert a in before;
        assert OneRun(containing, o);
        assert !Gap(containing, o, a, i - 1, i);
      }
    }
  }

  /** Field `i` is in a oneof that an earlier field is in but the one right before it is not. */
  ghost predicate ComesBack(containing: Containing, i: nat) {
    && 0 < i < |containing| && containing[i].Some? && containing[i - 1] != containing[i]
    && exists a :: 0 <= a < i && containing[a] == containing[i]
  }

  lemma InterruptsMeans(containing: Containing, i: nat)
    requires i < |containing|
    ensures Interrupts(containing, i) <==> ComesBack(containing, i)
  {
    if containing[i].Some? {
      var before := FieldsOf(containing, i, containing[i].value);
      FieldsOfMeans(containing, i, containing[i].value);
      hide FieldsOf;
      if before != [] { assert before[0] in before; }
    }
  }

  /** There is one error for each field that comes back to its oneof, in their order, and it names
      the field right before. */
  lemma {:induction false} InterruptionsAre(containing: Containing, n: nat)
    requires n <= |containing|
    ensures forall p: nat ::
      NotConsecutive(p) in Interruptions(containing, n) <==> p + 1 < n && ComesBack(containing, p + 1)
    ensures forall a | 0 <= a < |Interruptions(containing, n)| :: Interruptions(containing, n)[a].NotConsecutive?
    ensures forall a, b | 0 <= a < b < |Interruptions(containing, n)| ::
      Interruptions(containing, n)[a].before < Interruptions(containing, n)[b].before
    decreases n
  {
    hide Interrupts, ComesBack;
    if n > 0 {
      InterruptionsAre(containing, n - 1);
      InterruptsMeans(containing, n - 1);
      var front := Interruptions(containing, n - 1);
      assert forall a | 0 <= a < |front| :: front[a] == NotConsecutive(front[a].before) && front[a] in front;
    }
  }

  lemma {:induction false} EmptiesMean(containing: Containing, n: nat)
    ensures forall o: nat ::
      NoFields(o) in Empties(containing, n) <==>
        0 <= o < n && forall i | 0 <= i < |containing| :: containing[i] != Some(o)
  {
    hide FieldsOf;
    if n > 0 {
      EmptiesMean(containing, n - 1);
      FieldsOfMembers(containing, |containing|, n - 1);
      var all := FieldsOf(containing, |containing|, n - 1);
      assert all != [] ==> all[0] in all;
    }
  }

  // ---------------------------------------------------------------- the three passes

  class Message {
    const containing: Containing
    const oneofCount: nat
    /** How many fields each oneof has so far. */
    const fieldCount: array<nat>
    const indexInOneof: array<nat>
    var oneofFields: seq<array<nat>>
    var errors: seq<Error>

    predicate Valid()
      reads this
    {
      && fieldCount.Length == oneofCount && indexInOneof.Length == |containing| && fieldCount != indexInOneof
      && forall c | c in containing && c.Some? :: c.value < oneofCount
    }

    constructor (containing: Containing, oneofCount: nat)
      requires forall c | c in containing && c.Some? :: c.value < oneofCount
      ensures Valid() && this.containing == containing && this.oneofCount == oneofCount && errors == []
      ensures fresh(fieldCount) && fresh(indexInOneof) && forall o | 0 <= o < oneofCount :: fieldCount[o] == 0
    {
      this.containing, this.oneofCount := containing, oneofCount;
      fieldCount := new nat[oneofCount](_ => 0);
      indexInOneof := new nat[|containing|](_ => 0);
      oneofFields, errors := [], [];
    }

    method CountFields()
      requires Valid() && forall o | 0 <= o < oneofCount :: fieldCount[o] == 0
      modifies fieldCount, this`errors
      ensures forall o | 0 <= o < oneofCount :: fieldCount[o] == |FieldsOf(containing, |containing|, o)|
      ensures errors == old(errors) + Interruptions(containing, |containing|)
    {
      var i := 0;
      while i < |containing|
        invariant i <= |containing|
        invariant forall o | 0 <= o < oneofCount :: fieldCount[o] == |FieldsOf(containing, i, o)|
        invariant errors == old(errors) + Interruptions(containing, i)
      {
        if containing[i].Some? {
          assert containing[i] in containing;
          var o := containing[i].value;
          if fieldCount[o] > 0 && containing[i - 1] != Some(o) {
            errors := errors + [NotConsecutive(i - 1)];
          }
          fieldCount[o] := fieldCount[o] + 1;
        }
        i := i + 1;
      }
    }

    /** Each array has room for exactly the fields counted. */
    ghost predicate Allocated(n: nat)
      reads this
    {
      && |oneofFields| == n
      && (forall o | 0 <= o < n :: oneofFields[o].Length == |FieldsOf(containing, |containing|, o)|)
      && (forall o | 0 <= o < n :: oneofFields[o] != fieldCount && oneofFields[o] != indexInOneof)
      && (forall o, p | 0 <= o < p < n :: oneofFields[o] != oneofFields[p])
    }

    method AllocateArrays()
      requires Valid()
      requires forall o | 0 <= o < oneofCount :: fieldCount[o] == |FieldsOf(containing, |containing|, o)|
      modifies fieldCount, this`oneofFields, this`errors
      ensures Allocated(oneofCount) && forall o | 0 <= o < oneofCount :: fresh(oneofFields[o])
      ensures forall o | 0 <= o < oneofCount :: fieldCount[o] == 0
      ensures errors == old(errors) + Empties(containing, oneofCount)
    {
      hide FieldsOf;
      oneofFields := [];
      var o := 0;
      while o < oneofCount
        invariant o <= oneofCount && Allocated(o) && forall p | 0 <= p < o :: fresh(oneofFields[p])
        invariant forall p | 0 <= p < o :: fieldCount[p] == 0
        invariant forall p | o <= p < oneofCount :: fieldCount[p] == |FieldsOf(containing, |containing|, p)|
        invariant errors == old(errors) + Empties(containing, o)
      {
        if fieldCount[o] == 0 {
          errors := errors + [NoFields(o)];
        }
        var fields := new nat[fieldCount[o]];
        oneofFields := oneofFields + [fields];
        fieldCount[o] := 0;
        o := o + 1;
      }
    }

    ghost predicate CountsAre(i: nat)
      requires i <= |containing|
      reads this, fieldCount
    {
      fieldCount.Length == oneofCount && forall o | 0 <= o < oneofCount :: fieldCount[o] == |FieldsOf(containing, i, o)|
    }

    /** The front of every array holds its fields among the first `i`. */
    ghost predicate FrontsAre(i: nat)
      requires i <= |containing|
      reads this, oneofFields
    {
      && |oneofFields| == oneofCount
      && forall o | 0 <= o < oneofCount ::
        && |FieldsOf(containing, i, o)| <= oneofFields[o].Length
        && oneofFields[o][..|FieldsOf(containing, i, o)|] == FieldsOf(containing, i, o)
    }

    /** The first `i` fields know their places. */
    ghost predicate PlacesAre(i: nat)
      requires i <= |containing|
      reads this, indexInOneof
    {
      && indexInOneof.Length == |containing|
      && forall j | 0 <= j < i && containing[j].Some? ::
        var all := FieldsOf(containing, i, containing[j].value);
        indexInOneof[j] < |all| && all[indexInOneof[j]] == j
    }

    method PutPlace(i: nat, o: nat, at: nat)
      requires i < |containing| && containing[i] == Some(o) && PlacesAre(i) && at == |FieldsOf(containing, i, o)|
      modifies indexInOneof
      ensures PlacesAre(i + 1)
    {
      hide FieldsOf;
      FieldsOfStep(containing, i);
      indexInOneof[i] := at;
    }

    method PutFront(i: nat, o: nat, at: nat)
      requires i < |containing| && Valid() && Allocated(oneofCount) && FrontsAre(i)
      requires o < oneofCount && containing[i] == Some(o) && at == |FieldsOf(containing, i, o)|
      modifies oneofFields[o]
      ensures FrontsAre(i + 1)
    {
      hide FieldsOf;
      FieldsOfStep(containing, i);
      FieldsOfPrefix(containing, i + 1, |containing|, o);
      oneofFields[o][at] := i;
      forall p | 0 <= p < oneofCount
        ensures |FieldsOf(containing, i + 1, p)| <= oneofFields[p].Length
        ensures oneofFields[p][..|FieldsOf(containing, i + 1, p)|] == FieldsOf(containing, i + 1, p)
      {
        if p != o {
          assert oneofFields[p] != oneofFields[o] by { assert o < p || p < o; }
        } else {
          assert oneofFields[o][..at + 1] == oneofFields[o][..at] + [i];
        }
      }
    }

    method PutCount(i: nat, o: nat)
      requires i < |containing| && o < oneofCount && containing[i] == Some(o) && CountsAre(i)
      modifies fieldCount
      ensures CountsAre(i + 1)
    {
      hide FieldsOf;
      FieldsOfStep(containing, i);
      fieldCount[o] := fieldCount[o] + 1;
    }

    /** Puts field `i` at the end of its oneof's array. */
    method PlaceField(i: nat)
      requires Valid() && Allocated(oneofCount) && i < |containing|
      requires CountsAre(i) && FrontsAre(i) && PlacesAre(i)
      modifies fieldCount, indexInOneof, oneofFields
      ensures CountsAre(i + 1) && FrontsAre(i + 1) && PlacesAre(i + 1)
    {
      hide FieldsOf, FrontsAre, PlacesAre;
      if containing[i].Some? {
        assert containing[i] in containing;
        var o := containing[i].value;
        var at := fieldCount[o];
        PutPlace(i, o, at);
        PutFront(i, o, at);
        PutCount(i, o);
      } else {
        SkipField(i);
      }
    }

    lemma SkipField(i: nat)
      requires i < |containing| && containing[i] == None && CountsAre(i) && FrontsAre(i) && PlacesAre(i)
      ensures CountsAre(i + 1) && FrontsAre(i + 1) && PlacesAre(i + 1)
    {
      hide FieldsOf;
      FieldsOfStep(containing, i);
    }

    method FillArrays()
      requires Valid() && Allocated(oneofCount)
      requires forall o | 0 <= o < oneofCount :: fieldCount[o] == 0
      modifies fieldCount, indexInOneof, oneofFields
      ensures CountsAre(|containing|) && FrontsAre(|containing|) && PlacesAre(|containing|)
    {
      var i := 0;
      assert CountsAre(0) && FrontsAre(0) && PlacesAre(0);
      while i < |containing|
        invariant i <= |containing| && CountsAre(i) && FrontsAre(i) && PlacesAre(i)
      {
        hide CountsAre, FrontsAre, PlacesAre;
        PlaceField(i);
        i := i + 1;
      }
    }

    /** All three passes: each oneof's array holds exactly its fields in declaration order, each
        field knows its place there, and the errors say which oneofs are not one run or empty. */
    method LinkOneofs()
      requires Valid() && errors == [] && forall o | 0 <= o < oneofCount :: fieldCount[o] == 0
      modifies this, fieldCount, indexInOneof
      ensures |oneofFields| == oneofCount
      ensures forall o | 0 <= o < oneofCount :: oneofFields[o][..] == FieldsOf(containing, |containing|, o)
      ensures forall o | 0 <= o < oneofCount :: fieldCount[o] == oneofFields[o].Length
      ensures forall j | 0 <= j < |containing| && containing[j].Some? ::
        && containing[j].value < oneofCount
        && var all := oneofFields[containing[j].value];
           indexInOneof[j] < all.Length && all[indexInOneof[j]] == j
      ensures errors == Interruptions(containing, |containing|) + Empties(containing, oneofCount)
      ensures forall o, i :: 0 <= o < oneofCount ==>
        (i in oneofFields[o][..] <==> 0 <= i < |containing| && containing[i] == Some(o))
      ensures forall o, a, b | 0 <= o < oneofCount && 0 <= a < b < oneofFields[o].Length ::
        oneofFields[o][a] < oneofFields[o][b]
    {
      hide FieldsOf, Interruptions, Empties;
      CountFields();
      AllocateArrays();
      FillArrays();
      forall o | 0 <= o < oneofCount
        ensures oneofFields[o][..] == FieldsOf(containing, |containing|, o) && fieldCount[o] == oneofFields[o].Length
      {
        assert oneofFields[o][..] == oneofFields[o][..fieldCount[o]];
      }
      forall o | 0 <= o < oneofCount
        ensures forall i :: i in oneofFields[o][..] <==> 0 <= i < |containing| && containing[i] == Some(o)
        ensures forall a, b | 0 <= a < b < oneofFields[o].Length :: oneofFields[o][..][a] < oneofFields[o][..][b]
      {
        FieldsOfMeans(containing, |containing|, o);
      }
      forall j | 0 <= j < |containing| && containing[j].Some?
        ensures containing[j].value < oneofCount
        ensures var all := oneofFields[containing[j].value];
          indexInOneof[j] < all.Length && all[indexInOneof[j]] == j
      {
        assert containing[j] in containing;
        var o := containing[j].value;
        assert oneofFields[o][..][indexInOneof[j]] == j;
      }
    }
  }
}
