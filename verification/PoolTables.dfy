/** The descriptor pool's tables with nested checkpoints: additions are logged, and a
    rollback undoes the log back to the last checkpoint. */
module PoolTables {
  import opened Lists
  import opened Options

  /** The address of an object owned by the pool. */
  type Ptr = nat

  /** An entry of a table keyed by text: the address of the key and the mapped object. */
  datatype Keyed<V> = Keyed(key: Ptr, value: V)

  /** The three tables, the five allocation lists and the text of every live string. */
  datatype Content<S> = Content(
    symbols: map<string, Keyed<S>>,
    files: map<string, Keyed<Ptr>>,
    extensions: map<(Ptr, int), Ptr>,
    strings: seq<Ptr>,
    text: map<Ptr, string>,
    messages: seq<Ptr>,
    onces: seq<Ptr>,
    fileTables: seq<Ptr>,
    allocations: seq<Ptr>)

  datatype CheckPoint = CheckPoint(
    strings: nat, messages: nat, onces: nat, fileTables: nat, allocations: nat,
    pendingSymbols: nat, pendingFiles: nat, pendingExtensions: nat)

  datatype State<S> = State(
    content: Content<S>,
    pendingSymbols: seq<Ptr>,
    pendingFiles: seq<Ptr>,
    pendingExtensions: seq<(Ptr, int)>,
    checkpoints: seq<CheckPoint>)

  datatype Op<S> =
    | AddCheckpoint
    | ClearLastCheckpoint
    | RollbackToLastCheckpoint
    | AddSymbol(symbolName: Ptr, symbol: S)
    | AddFile(fileName: Ptr, file: Ptr)
    | AddExtension(key: (Ptr, int), field: Ptr)
    | AllocateString(stringAt: Ptr, value: string)
    | AllocateMessage(message: Ptr)
    | AllocateOnceDynamic(once: Ptr)
    | AllocateFileTables(tables: Ptr)
    | AllocateBytes(bytes: Ptr)

  // ---------------------------------------------------------------- single operations

  function Mark<S>(t: State<S>): CheckPoint {
    CheckPoint(|t.content.strings|, |t.content.messages|, |t.content.onces|, |t.content.fileTables|,
      |t.content.allocations|, |t.pendingSymbols|, |t.pendingFiles|, |t.pendingExtensions|)
  }

  /** `mark` was taken no later than `later`. */
  predicate Before(mark: CheckPoint, later: CheckPoint) {
    && mark.strings <= later.strings && mark.messages <= later.messages && mark.onces <= later.onces
    && mark.fileTables <= later.fileTables && mark.allocations <= later.allocations
    && mark.pendingSymbols <= later.pendingSymbols && mark.pendingFiles <= later.pendingFiles
    && mark.pendingExtensions <= later.pendingExtensions
  }

  /** The texts a sequence of key addresses points to. */
  function Texts(keys: seq<Ptr>, text: map<Ptr, string>): set<string> {
    set i | 0 <= i < |keys| && keys[i] in text :: text[keys[i]]
  }

  /** Undoes everything logged and allocated since `mark`. */
  function Restore<S>(t: State<S>, mark: CheckPoint, below: seq<CheckPoint>): State<S>
    requires Before(mark, Mark(t))
  {
    var c := t.content;
    State(
      Content(
        c.symbols - Texts(t.pendingSymbols[mark.pendingSymbols..], c.text),
        c.files - Texts(t.pendingFiles[mark.pendingFiles..], c.text),
        c.extensions - (set k | k in t.pendingExtensions[mark.pendingExtensions..]),
        c.strings[..mark.strings],
        c.text - (set p | p in c.strings[mark.strings..]),
        c.messages[..mark.messages],
        c.onces[..mark.onces],
        c.fileTables[..mark.fileTables],
        c.allocations[..mark.allocations]),
      t.pendingSymbols[..mark.pendingSymbols],
      t.pendingFiles[..mark.pendingFiles],
      t.pendingExtensions[..mark.pendingExtensions],
      below)
  }

  /** The state a rollback to checkpoint `d` (and past every later one) would give. */
  function UndoTo<S>(t: State<S>, d: nat): State<S>
    requires d < |t.checkpoints| && Before(t.checkpoints[d], Mark(t))
  {
    Restore(t, t.checkpoints[d], t.checkpoints[..d])
  }

  /** Every key address is live and spells its key, in the tables and in the logs. */
  ghost predicate Live<S>(t: State<S>) {
    var c := t.content;
    && Distinct(c.strings)
    && (forall p :: p in c.text <==> p in c.strings)
    && (forall k | k in c.symbols :: c.symbols[k].key in c.text && c.text[c.symbols[k].key] == k)
    && (forall k | k in c.files :: c.files[k].key in c.text && c.text[c.files[k].key] == k)
    && (forall i | 0 <= i < |t.pendingSymbols| :: t.pendingSymbols[i] in c.text)
    && (forall i | 0 <= i < |t.pendingFiles| :: t.pendingFiles[i] in c.text)
  }

  ghost predicate Ordered<S>(t: State<S>) {
    && (forall d | 0 <= d < |t.checkpoints| :: Before(t.checkpoints[d], Mark(t)))
    && (forall d, e | 0 <= d < e < |t.checkpoints| :: Before(t.checkpoints[d], t.checkpoints[e]))
  }

  /** The invariant of every run. */
  ghost predicate Valid<S>(t: State<S>) {
    && Ordered(t)
    && Live(t)
    && forall d | 0 <= d < |t.checkpoints| :: Live(UndoTo(t, d))
  }

  /** What the pool's code guarantees before each operation. */
  ghost predicate Enabled<S>(t: State<S>, op: Op<S>) {
    match op
    case ClearLastCheckpoint => t.checkpoints != []
    case RollbackToLastCheckpoint => t.checkpoints != []
    case AddSymbol(name, _) => name in t.content.text
    case AddFile(name, _) => name in t.content.text
    case AllocateString(p, _) => p !in t.content.text
    case _ => true
  }

  /** Whether an insertion finds its key free. */
  predicate Inserts<S>(c: Content<S>, op: Op<S>) {
    match op
    case AddSymbol(name, _) => name in c.text && c.text[name] !in c.symbols
    case AddFile(name, _) => name in c.text && c.text[name] !in c.files
    case AddExtension(key, _) => key !in c.extensions
    case _ => false
  }

  /** Additions and allocations, as they change the content alone. */
  function Apply<S>(c: Content<S>, op: Op<S>): Content<S> {
    match op
    case AddSymbol(name, s) =>
      if Inserts(c, op) then c.(symbols := c.symbols[c.text[name] := Keyed(name, s)]) else c
    case AddFile(name, f) =>
      if Inserts(c, op) then c.(files := c.files[c.text[name] := Keyed(name, f)]) else c
    case AddExtension(key, f) =>
      if Inserts(c, op) then c.(extensions := c.extensions[key := f]) else c
    case AllocateString(p, v) => c.(strings := c.strings + [p], text := c.text[p := v])
    case AllocateMessage(p) => c.(messages := c.messages + [p])
    case AllocateOnceDynamic(p) => c.(onces := c.onces + [p])
    case AllocateFileTables(p) => c.(fileTables := c.fileTables + [p])
    case AllocateBytes(p) => c.(allocations := c.allocations + [p])
    case _ => c
  }

  /** One operation on the logged tables. */
  function Step<S>(t: State<S>, op: Op<S>): State<S>
    requires op.RollbackToLastCheckpoint? && t.checkpoints != [] ==>
      Before(t.checkpoints[|t.checkpoints| - 1], Mark(t))
  {
    match op
    case AddCheckpoint => t.(checkpoints := t.checkpoints + [Mark(t)])
    case ClearLastCheckpoint =>
      if t.checkpoints == [] then t
      else if |t.checkpoints| == 1 then State(t.content, [], [], [], [])
      else t.(checkpoints := t.checkpoints[..|t.checkpoints| - 1])
    case RollbackToLastCheckpoint =>
      if t.checkpoints == [] then t else UndoTo(t, |t.checkpoints| - 1)
    case _ =>
      var next := t.(content := Apply(t.content, op));
      if !Inserts(t.content, op) then next
      else match op
        case AddSymbol(name, _) => next.(pendingSymbols := t.pendingSymbols + [name])
        case AddFile(name, _) => next.(pendingFiles := t.pendingFiles + [name])
        case AddExtension(key, _) => next.(pendingExtensions := t.pendingExtensions + [key])
        case _ => next
  }

  // ---------------------------------------------------------------- the simple form

  /** What the checkpoints mean: a stack of full copies of the content. */
  datatype Copies<S> = Copies(current: Content<S>, saved: seq<Content<S>>)

  function CopyStep<S>(a: Copies<S>, op: Op<S>): Copies<S> {
    match op
    case AddCheckpoint => Copies(a.current, a.saved + [a.current])
    case ClearLastCheckpoint => if a.saved == [] then a else Copies(a.current, a.saved[..|a.saved| - 1])
    case RollbackToLastCheckpoint =>
      if a.saved == [] then a else Copies(a.saved[|a.saved| - 1], a.saved[..|a.saved| - 1])
    case _ => Copies(Apply(a.current, op), a.saved)
  }

  function Abstract<S>(t: State<S>): Copies<S>
    requires forall d | 0 <= d < |t.checkpoints| :: Before(t.checkpoints[d], Mark(t))
  {
    Copies(t.content, seq(|t.checkpoints|, d requires 0 <= d < |t.checkpoints| => UndoTo(t, d).content))
  }

  // ---------------------------------------------------------------- one step

  predicate IsAddition<S>(op: Op<S>) {
    !op.AddCheckpoint? && !op.ClearLastCheckpoint? && !op.RollbackToLastCheckpoint?
  }

  lemma TextsOfMore(keys: seq<Ptr>, more: Ptr, text: map<Ptr, string>)
    requires more in text
    ensures Texts(keys + [more], text) == Texts(keys, text) + {text[more]}
  {
    var all := keys + [more];
    assert all[|keys|] == more;
    forall x | x in Texts(keys, text) ensures x in Texts(all, text) {
      var i :| 0 <= i < |keys| && keys[i] in text && text[keys[i]] == x;
      assert all[i] == keys[i];
    }
  }

  lemma TextsAgree(keys: seq<Ptr>, a: map<Ptr, string>, b: map<Ptr, string>)
    requires forall i | 0 <= i < |keys| :: keys[i] in a && keys[i] in b && a[keys[i]] == b[keys[i]]
    ensures Texts(keys, a) == Texts(keys, b)
  {
  }

  lemma TextsOfConcat(a: seq<Ptr>, b: seq<Ptr>, text: map<Ptr, string>)
    ensures Texts(a + b, text) == Texts(a, text) + Texts(b, text)
  {
    var all := a + b;
    forall i | 0 <= i < |a| ensures all[i] == a[i] {}
    forall i | 0 <= i < |b| ensures all[|a| + i] == b[i] {}
  }

  lemma SymbolKeepsUndo<S>(t: State<S>, op: Op<S>, d: nat)
    requires op.AddSymbol? && Inserts(t.content, op)
    requires d < |t.checkpoints| && Before(t.checkpoints[d], Mark(t))
    ensures Before(t.checkpoints[d], Mark(Step(t, op))) && UndoTo(Step(t, op), d) == UndoTo(t, d)
  {
    var m, n := t.checkpoints[d].pendingSymbols, Step(t, op);
    assert n.pendingSymbols[m..] == t.pendingSymbols[m..] + [op.symbolName];
    TextsOfMore(t.pendingSymbols[m..], op.symbolName, t.content.text);
    assert UndoTo(n, d).content.symbols == UndoTo(t, d).content.symbols;
    assert n.pendingSymbols[..m] == t.pendingSymbols[..m];
  }

  lemma FileKeepsUndo<S>(t: State<S>, op: Op<S>, d: nat)
    requires op.AddFile? && Inserts(t.content, op)
    requires d < |t.checkpoints| && Before(t.checkpoints[d], Mark(t))
    ensures Before(t.checkpoints[d], Mark(Step(t, op))) && UndoTo(Step(t, op), d) == UndoTo(t, d)
  {
    var m, n := t.checkpoints[d].pendingFiles, Step(t, op);
    assert n.pendingFiles[m..] == t.pendingFiles[m..] + [op.fileName];
    TextsOfMore(t.pendingFiles[m..], op.fileName, t.content.text);
    assert UndoTo(n, d).content.files == UndoTo(t, d).content.files;
    assert n.pendingFiles[..m] == t.pendingFiles[..m];
  }

  lemma ExtensionKeepsUndo<S>(t: State<S>, op: Op<S>, d: nat)
    requires op.AddExtension? && Inserts(t.content, op)
    requires d < |t.checkpoints| && Before(t.checkpoints[d], Mark(t))
    ensures Before(t.checkpoints[d], Mark(Step(t, op))) && UndoTo(Step(t, op), d) == UndoTo(t, d)
  {
    var m, n := t.checkpoints[d].pendingExtensions, Step(t, op);
    assert n.pendingExtensions[m..] == t.pendingExtensions[m..] + [op.key];
    assert UndoTo(n, d).content.extensions == UndoTo(t, d).content.extensions;
    assert n.pendingExtensions[..m] == t.pendingExtensions[..m];
  }

  lemma StringKeepsUndo<S>(t: State<S>, op: Op<S>, d: nat)
    requires op.AllocateString? && Enabled(t, op) && Live(t)
    requires d < |t.checkpoints| && Before(t.checkpoints[d], Mark(t))
    ensures Before(t.checkpoints[d], Mark(Step(t, op))) && UndoTo(Step(t, op), d) == UndoTo(t, d)
  {
    var m, n := t.checkpoints[d], Step(t, op);
    assert n.content.strings[..m.strings] == t.content.strings[..m.strings];
    assert n.content.strings[m.strings..] == t.content.strings[m.strings..] + [op.stringAt];
    TextsAgree(t.pendingSymbols[m.pendingSymbols..], t.content.text, n.content.text);
    TextsAgree(t.pendingFiles[m.pendingFiles..], t.content.text, n.content.text);
    assert UndoTo(n, d).content.text == UndoTo(t, d).content.text;
  }

  /** An addition is invisible to every earlier checkpoint. */
  lemma AdditionKeepsUndo<S>(t: State<S>, op: Op<S>, d: nat)
    requires Live(t) && Enabled(t, op) && IsAddition(op)
    requires d < |t.checkpoints| && Before(t.checkpoints[d], Mark(t))
    ensures Before(t.checkpoints[d], Mark(Step(t, op)))
    ensures UndoTo(Step(t, op), d) == UndoTo(t, d)
  {
    var m, c, n := t.checkpoints[d], t.content, Step(t, op);
    match op
    case AddSymbol(_, _) => if Inserts(c, op) { SymbolKeepsUndo(t, op, d); }
    case AddFile(_, _) => if Inserts(c, op) { FileKeepsUndo(t, op, d); }
    case AddExtension(_, _) => if Inserts(c, op) { ExtensionKeepsUndo(t, op, d); }
    case AllocateString(_, _) => StringKeepsUndo(t, op, d);
    case AllocateMessage(_) => assert n.content.messages[..m.messages] == c.messages[..m.messages];
    case AllocateOnceDynamic(_) => assert n.content.onces[..m.onces] == c.onces[..m.onces];
    case AllocateFileTables(_) => assert n.content.fileTables[..m.fileTables] == c.fileTables[..m.fileTables];
    case AllocateBytes(_) => assert n.content.allocations[..m.allocations] == c.allocations[..m.allocations];
  }

  /** Undoing past two checkpoints at once is undoing them one after the other. */
  lemma UndoTwice<S>(t: State<S>, d: nat, e: nat)
    requires d < e < |t.checkpoints| && Before(t.checkpoints[d], t.checkpoints[e])
    requires Before(t.checkpoints[e], Mark(t))
    requires Live(UndoTo(t, e))
    ensures Before(t.checkpoints[d], Mark(UndoTo(t, e)))
    ensures UndoTo(UndoTo(t, e), d) == UndoTo(t, d)
  {
    var md, me := t.checkpoints[d], t.checkpoints[e];
    var u := UndoTo(t, e);
    assert u.checkpoints[d] == md && u.checkpoints[..d] == t.checkpoints[..d];
    assert Mark(u) == me;
    UndoTwiceTables(t, u, md, me);
    assert u.content.strings[..md.strings] == t.content.strings[..md.strings];
    assert t.content.strings[md.strings..] == u.content.strings[md.strings..] + t.content.strings[me.strings..];
    assert UndoTo(u, d).content.text == UndoTo(t, d).content.text;
    assert u.content.messages[..md.messages] == t.content.messages[..md.messages];
    assert u.content.onces[..md.onces] == t.content.onces[..md.onces];
    assert u.content.fileTables[..md.fileTables] == t.content.fileTables[..md.fileTables];
    assert u.content.allocations[..md.allocations] == t.content.allocations[..md.allocations];
  }

  lemma UndoTwiceTables<S>(t: State<S>, u: State<S>, md: CheckPoint, me: CheckPoint)
    requires Before(md, me) && Before(me, Mark(t))
    requires u == Restore(t, me, u.checkpoints) && Live(u)
    requires Before(md, Mark(u))
    ensures var a, b := Restore(u, md, []), Restore(t, md, []);
      && a.content.symbols == b.content.symbols && a.content.files == b.content.files
      && a.content.extensions == b.content.extensions
      && a.pendingSymbols == b.pendingSymbols && a.pendingFiles == b.pendingFiles
      && a.pendingExtensions == b.pendingExtensions
  {
    hide Texts;
    UndoTwiceKeyed(t.content.symbols, t.pendingSymbols, u.pendingSymbols, md.pendingSymbols, me.pendingSymbols,
      t.content.text, u.content.text);
    UndoTwiceKeyed(t.content.files, t.pendingFiles, u.pendingFiles, md.pendingFiles, me.pendingFiles,
      t.content.text, u.content.text);
    UndoTwiceExtensions(t.content.extensions, t.pendingExtensions, md.pendingExtensions, me.pendingExtensions);
  }

  lemma UndoTwiceKeyed<V>(table: map<string, Keyed<V>>, pending: seq<Ptr>, left: seq<Ptr>, d: nat, e: nat,
      text: map<Ptr, string>, kept: map<Ptr, string>)
    requires d <= e <= |pending| && left == pending[..e]
    requires forall p | p in left :: p in kept && p in text && kept[p] == text[p]
    ensures table - Texts(pending[e..], text) - Texts(left[d..], kept) == table - Texts(pending[d..], text)
    ensures left[..d] == pending[..d]
  {
    hide Texts;
    UndoTwiceKeys(pending, left, d, e, text, kept);
  }

  lemma UndoTwiceExtensions(table: map<(Ptr, int), Ptr>, pending: seq<(Ptr, int)>, d: nat, e: nat)
    requires d <= e <= |pending|
    ensures table - (set k | k in pending[e..]) - (set k | k in pending[..e][d..]) ==
      table - (set k | k in pending[d..])
    ensures pending[..e][..d] == pending[..d]
  {
    assert pending[d..] == pending[..e][d..] + pending[e..];
  }

  lemma UndoTwiceKeys(pending: seq<Ptr>, left: seq<Ptr>, d: nat, e: nat, text: map<Ptr, string>, kept: map<Ptr, string>)
    requires d <= e <= |pending| && left == pending[..e]
    requires forall p | p in left :: p in kept && p in text && kept[p] == text[p]
    ensures Texts(pending[d..], text) == Texts(left[d..], kept) + Texts(pending[e..], text)
    ensures left[..d] == pending[..d]
  {
    assert pending[d..] == left[d..] + pending[e..];
    TextsOfConcat(left[d..], pending[e..], text);
    TextsAgree(left[d..], text, kept);
  }

  /** Right after a checkpoint, undoing it changes nothing. */
  lemma UndoFresh<S>(t: State<S>)
    requires Valid(t)
    ensures var n := Step(t, AddCheckpoint);
      Before(n.checkpoints[|t.checkpoints|], Mark(n)) && UndoTo(n, |t.checkpoints|) == t
  {
    var n := Step(t, AddCheckpoint);
    assert n.checkpoints[..|t.checkpoints|] == t.checkpoints;
    assert Mark(n) == Mark(t);
    var u := UndoTo(n, |t.checkpoints|).content;
    assert u.symbols == t.content.symbols;
    assert u.files == t.content.files;
    assert u.extensions == t.content.extensions;
    assert u.text == t.content.text;
    assert u.strings == t.content.strings;
  }

  lemma AdditionKeepsLive<S>(t: State<S>, op: Op<S>)
    requires Live(t) && Enabled(t, op) && IsAddition(op)
    ensures Live(Step(t, op))
  {
  }

  /** A rolled-back state still holds every earlier checkpoint. */
  lemma RollbackShape<S>(t: State<S>, e: nat)
    requires Ordered(t) && e < |t.checkpoints|
    ensures Mark(UndoTo(t, e)) == t.checkpoints[e] && Ordered(UndoTo(t, e))
    ensures |UndoTo(t, e).checkpoints| == e
  {
  }

  /** The invariant carries over when every checkpoint still undoes to a live state. */
  lemma ValidFromUndo<S>(t: State<S>, n: State<S>)
    requires Valid(t) && Live(n) && Ordered(n) && |n.checkpoints| <= |t.checkpoints|
    requires forall d | 0 <= d < |n.checkpoints| :: UndoTo(n, d) == UndoTo(t, d)
    ensures Valid(n)
  {
  }

  lemma CheckpointKeepsValid<S>(t: State<S>)
    requires Valid(t)
    ensures Valid(Step(t, AddCheckpoint))
  {
    var n := Step(t, AddCheckpoint);
    UndoFresh(t);
    assert Mark(n) == Mark(t);
    forall d | 0 <= d < |t.checkpoints| ensures UndoTo(n, d) == UndoTo(t, d) {
      assert n.checkpoints[..d] == t.checkpoints[..d];
    }
    assert Live(n);
  }

  lemma ClearKeepsValid<S>(t: State<S>)
    requires Valid(t) && t.checkpoints != []
    ensures Valid(Step(t, ClearLastCheckpoint))
  {
    var n := Step(t, ClearLastCheckpoint);
    forall d | 0 <= d < |n.checkpoints| ensures UndoTo(n, d) == UndoTo(t, d) {
      assert n.checkpoints[..d] == t.checkpoints[..d];
    }
    ValidFromUndo(t, n);
  }

  lemma RollbackKeepsValid<S>(t: State<S>)
    requires Valid(t) && t.checkpoints != []
    ensures Valid(Step(t, RollbackToLastCheckpoint))
  {
    var n, e := Step(t, RollbackToLastCheckpoint), |t.checkpoints| - 1;
    RollbackShape(t, e);
    forall d | 0 <= d < e ensures UndoTo(n, d) == UndoTo(t, d) {
      UndoTwice(t, d, e);
    }
    ValidFromUndo(t, n);
  }

  lemma AdditionKeepsValid<S>(t: State<S>, op: Op<S>)
    requires Valid(t) && Enabled(t, op) && IsAddition(op)
    ensures Valid(Step(t, op))
  {
    var n := Step(t, op);
    AdditionKeepsLive(t, op);
    assert n.checkpoints == t.checkpoints;
    forall d | 0 <= d < |n.checkpoints|
      ensures Before(t.checkpoints[d], Mark(n)) && UndoTo(n, d) == UndoTo(t, d)
    {
      AdditionKeepsUndo(t, op, d);
    }
    ValidFromUndo(t, n);
  }

  /** Every operation keeps the invariant. */
  lemma StepKeepsValid<S>(t: State<S>, op: Op<S>)
    requires Valid(t) && Enabled(t, op)
    ensures Valid(Step(t, op))
  {
    match op
    case AddCheckpoint => CheckpointKeepsValid(t);
    case ClearLastCheckpoint => ClearKeepsValid(t);
    case RollbackToLastCheckpoint => RollbackKeepsValid(t);
    case _ => AdditionKeepsValid(t, op);
  }

  /** Every operation on the logged tables is the same operation on full copies. */
  lemma StepRefinesCopies<S>(t: State<S>, op: Op<S>)
    requires Valid(t) && Enabled(t, op)
    ensures Valid(Step(t, op))
    ensures Abstract(Step(t, op)) == CopyStep(Abstract(t), op)
  {
    hide Restore, Live, Apply, Inserts, Before, Mark;
    StepKeepsValid(t, op);
    var n, depth := Step(t, op), |t.checkpoints|;
    var a, b := Abstract(n), CopyStep(Abstract(t), op);
    if op.RollbackToLastCheckpoint? && depth > 0 { RollbackShape(t, depth - 1); }
    if op.AddCheckpoint? { UndoFresh(t); }
    assert |a.saved| == |b.saved|;
    forall d | 0 <= d < |n.checkpoints| ensures a.saved[d] == b.saved[d] {
      if d < depth { StepKeepsUndo(t, op, d); }
    }
  }

  // ---------------------------------------------------------------- whole runs

  ghost predicate RunEnabled<S>(t: State<S>, ops: seq<Op<S>>)
    requires Valid(t)
    decreases |ops|
  {
    ops == [] ||
    (Enabled(t, ops[0]) && (StepKeepsValid(t, ops[0]); RunEnabled(Step(t, ops[0]), ops[1..])))
  }

  ghost function Run<S>(t: State<S>, ops: seq<Op<S>>): State<S>
    requires Valid(t) && RunEnabled(t, ops)
    decreases |ops|
  {
    if ops == [] then t
    else StepKeepsValid(t, ops[0]); Run(Step(t, ops[0]), ops[1..])
  }

  function CopyRun<S>(a: Copies<S>, ops: seq<Op<S>>): Copies<S>
    decreases |ops|
  {
    if ops == [] then a else CopyRun(CopyStep(a, ops[0]), ops[1..])
  }

  /** Over every run, the undo log does exactly what a stack of full copies would do,
      and no key in the tables or in the logs points to a freed string. */
  lemma {:induction false} RunRefinesCopies<S>(t: State<S>, ops: seq<Op<S>>)
    requires Valid(t) && RunEnabled(t, ops)
    ensures Valid(Run(t, ops)) && Live(Run(t, ops))
    ensures Abstract(Run(t, ops)) == CopyRun(Abstract(t), ops)
    decreases |ops|
  {
    if ops != [] {
      StepRefinesCopies(t, ops[0]);
      RunRefinesCopies(Step(t, ops[0]), ops[1..]);
    }
  }

  /** Every prefix of the run keeps more than `depth` checkpoints open. */
  ghost predicate StaysAbove<S>(t: State<S>, ops: seq<Op<S>>, depth: nat)
    requires Valid(t) && RunEnabled(t, ops)
    decreases |ops|
  {
    depth < |t.checkpoints| &&
    (ops == [] || (StepKeepsValid(t, ops[0]); StaysAbove(Step(t, ops[0]), ops[1..], depth)))
  }

  lemma UndoIgnoresLater<S>(t: State<S>, n: State<S>, d: nat)
    requires d < |t.checkpoints| && d < |n.checkpoints| && Before(t.checkpoints[d], Mark(t))
    requires n == t.(checkpoints := n.checkpoints)
    requires n.checkpoints <= t.checkpoints || t.checkpoints <= n.checkpoints
    ensures Before(n.checkpoints[d], Mark(n)) && UndoTo(n, d) == UndoTo(t, d)
  {
    assert n.checkpoints[..d] == t.checkpoints[..d];
  }

  /** An operation that leaves checkpoint `d` open does not change what undoing to it gives. */
  lemma StepKeepsUndo<S>(t: State<S>, op: Op<S>, d: nat)
    requires Valid(t) && Enabled(t, op) && d < |t.checkpoints|
    requires Valid(Step(t, op)) && d < |Step(t, op).checkpoints|
    ensures UndoTo(Step(t, op), d) == UndoTo(t, d)
  {
    hide Restore, Live, Apply, Inserts, Before, Mark;
    match op
    case AddCheckpoint => UndoIgnoresLater(t, Step(t, op), d);
    case ClearLastCheckpoint => UndoIgnoresLater(t, Step(t, op), d);
    case RollbackToLastCheckpoint =>
      RollbackShape(t, |t.checkpoints| - 1);
      UndoTwice(t, d, |t.checkpoints| - 1);
    case _ => AdditionKeepsUndo(t, op, d);
  }

  lemma {:induction false} RunKeepsUndo<S>(t: State<S>, ops: seq<Op<S>>, depth: nat)
    requires Valid(t) && RunEnabled(t, ops) && StaysAbove(t, ops, depth)
    ensures Valid(Run(t, ops)) && depth < |Run(t, ops).checkpoints|
    ensures UndoTo(Run(t, ops), depth) == UndoTo(t, depth)
    decreases |ops|
  {
    if ops != [] {
      StepKeepsValid(t, ops[0]);
      RunKeepsUndo(Step(t, ops[0]), ops[1..], depth);
      StepKeepsUndo(t, ops[0], depth);
    }
  }

  /** Whatever runs between a checkpoint and its own rollback, inner checkpoints that were
      cleared or rolled back included, the rollback restores every table, list and log. */
  lemma RollbackRestores<S>(t: State<S>, ops: seq<Op<S>>)
    requires Valid(t) && Valid(Step(t, AddCheckpoint)) && RunEnabled(Step(t, AddCheckpoint), ops)
    requires StaysAbove(Step(t, AddCheckpoint), ops, |t.checkpoints|)
    requires |Run(Step(t, AddCheckpoint), ops).checkpoints| == |t.checkpoints| + 1
    ensures Valid(Run(Step(t, AddCheckpoint), ops))
    ensures Step(Run(Step(t, AddCheckpoint), ops), RollbackToLastCheckpoint) == t
  {
    UndoFresh(t);
    RunKeepsUndo(Step(t, AddCheckpoint), ops, |t.checkpoints|);
  }

  // ---------------------------------------------------------------- what the tables hold

  /** The additions still standing, in order, and those that stood at every open checkpoint. */
  datatype History<S> = History(standing: seq<Op<S>>, saved: seq<seq<Op<S>>>)

  /** A checkpoint remembers what stands, a rollback goes back to it, and a clearing forgets it. */
  function Standing<S>(h: History<S>, ops: seq<Op<S>>): History<S>
    decreases |ops|
  {
    if ops == [] then h
    else
      var top := |h.saved| - 1;
      var next :=
        if ops[0].AddCheckpoint? then h.(saved := h.saved + [h.standing])
        else if IsAddition(ops[0]) then h.(standing := h.standing + [ops[0]])
        else if h.saved == [] then h
        else if ops[0].ClearLastCheckpoint? then h.(saved := h.saved[..top])
        else History(h.saved[top], h.saved[..top]);
      Standing(next, ops[1..])
  }

  /** Addition `i` is of a symbol whose name was allocated before it and spells `name`. */
  ghost predicate NamesSymbol<S>(standing: seq<Op<S>>, i: nat, name: string) {
    && i < |standing| && standing[i].AddSymbol?
    && Op.AllocateString(standing[i].symbolName, name) in standing[..i]
  }

  ghost predicate NamesFile<S>(standing: seq<Op<S>>, i: nat, name: string) {
    && i < |standing| && standing[i].AddFile?
    && Op.AllocateString(standing[i].fileName, name) in standing[..i]
  }

  ghost predicate AddsExtension<S>(standing: seq<Op<S>>, i: nat, key: (Ptr, int)) {
    i < |standing| && standing[i].AddExtension? && standing[i].key == key
  }

  /** The kinds of additions that are only listed. */
  datatype Listed = String | Message | OnceDynamic | FileTables | Bytes

  /** The addresses listed by the additions of one kind, in order. */
  function Addresses<S>(standing: seq<Op<S>>, kind: Listed): seq<Ptr> {
    if standing == [] then []
    else
      var (before, last) := (standing[..|standing| - 1], standing[|standing| - 1]);
      Addresses(before, kind) +
      match (kind, last)
      case (String, AllocateString(p, _)) => [p]
      case (Message, AllocateMessage(p)) => [p]
      case (OnceDynamic, AllocateOnceDynamic(p)) => [p]
      case (FileTables, AllocateFileTables(p)) => [p]
      case (Bytes, AllocateBytes(p)) => [p]
      case _ => []
  }

  /** `entry` is what the first standing addition of `name` gave. */
  ghost predicate FirstSymbol<S>(standing: seq<Op<S>>, i: nat, name: string, entry: Keyed<S>) {
    && NamesSymbol(standing, i, name) && (forall j: nat :: j < i ==> !NamesSymbol(standing, j, name))
    && entry == Keyed(standing[i].symbolName, standing[i].symbol)
  }

  ghost predicate SymbolsStand<S>(table: map<string, Keyed<S>>, standing: seq<Op<S>>) {
    && (forall name, i: nat :: NamesSymbol(standing, i, name) ==> name in table)
    && (forall name | name in table :: exists i: nat :: FirstSymbol(standing, i, name, table[name]))
  }

  /** `entry` is what the first standing addition of `name` gave. */
  ghost predicate FirstFile<S>(standing: seq<Op<S>>, i: nat, name: string, entry: Keyed<Ptr>) {
    && NamesFile(standing, i, name) && (forall j: nat :: j < i ==> !NamesFile(standing, j, name))
    && entry == Keyed(standing[i].fileName, standing[i].file)
  }

  ghost predicate FilesStand<S>(table: map<string, Keyed<Ptr>>, standing: seq<Op<S>>) {
    && (forall name, i: nat :: NamesFile(standing, i, name) ==> name in table)
    && (forall name | name in table :: exists i: nat :: FirstFile(standing, i, name, table[name]))
  }

  ghost predicate FirstExtension<S>(standing: seq<Op<S>>, i: nat, key: (Ptr, int), field: Ptr) {
    && AddsExtension(standing, i, key) && (forall j: nat :: j < i ==> !AddsExtension(standing, j, key))
    && field == standing[i].field
  }

  ghost predicate ExtensionsStand<S>(table: map<(Ptr, int), Ptr>, standing: seq<Op<S>>) {
    && (forall key, i: nat :: AddsExtension(standing, i, key) ==> key in table)
    && (forall key | key in table :: exists i: nat :: FirstExtension(standing, i, key, table[key]))
  }

  ghost predicate TextStands<S>(text: map<Ptr, string>, standing: seq<Op<S>>) {
    forall p, value: string :: p in text && text[p] == value <==> Op.AllocateString(p, value) in standing
  }

  ghost predicate ListsStand<S>(c: Content<S>, standing: seq<Op<S>>) {
    && c.strings == Addresses(standing, String) && c.messages == Addresses(standing, Message)
    && c.onces == Addresses(standing, OnceDynamic) && c.fileTables == Addresses(standing, FileTables)
    && c.allocations == Addresses(standing, Bytes) && TextStands(c.text, standing)
  }

  ghost predicate Stands<S>(c: Content<S>, standing: seq<Op<S>>) {
    && ListsStand(c, standing) && SymbolsStand(c.symbols, standing) && FilesStand(c.files, standing)
    && ExtensionsStand(c.extensions, standing)
  }

  lemma ListsStandAfter<S>(c: Content<S>, standing: seq<Op<S>>, op: Op<S>)
    requires ListsStand(c, standing) && IsAddition(op)
    requires op.AllocateString? ==> op.stringAt !in c.text
    ensures ListsStand(Apply(c, op), standing + [op])
  {
    var all := standing + [op];
    assert all[..|all| - 1] == standing && all[|all| - 1] == op;
  }

  lemma NamesSymbolAfter<S>(text: map<Ptr, string>, standing: seq<Op<S>>, op: Op<S>, i: nat, name: string)
    requires TextStands(text, standing)
    requires op.AddSymbol? ==> op.symbolName in text
    ensures NamesSymbol(standing + [op], i, name) <==>
      if i < |standing| then NamesSymbol(standing, i, name)
      else i == |standing| && op.AddSymbol? && text[op.symbolName] == name
  {
    var all := standing + [op];
    if i <= |standing| { assert all[..i] == standing[..i]; }
    assert standing[..|standing|] == standing;
  }

  lemma SymbolsStandAfter<S>(c: Content<S>, standing: seq<Op<S>>, op: Op<S>)
    requires TextStands(c.text, standing) && SymbolsStand(c.symbols, standing) && IsAddition(op)
    requires op.AddSymbol? ==> op.symbolName in c.text
    ensures SymbolsStand(Apply(c, op).symbols, standing + [op])
  {
    var all, table := standing + [op], Apply(c, op).symbols;
    forall i: nat, name
      ensures NamesSymbol(all, i, name) <==>
        if i < |standing| then NamesSymbol(standing, i, name)
        else i == |standing| && op.AddSymbol? && c.text[op.symbolName] == name
    {
      NamesSymbolAfter(c.text, standing, op, i, name);
    }
    forall name | name in table ensures exists i: nat :: FirstSymbol(all, i, name, table[name]) {
      if name in c.symbols {
        var i: nat :| FirstSymbol(standing, i, name, c.symbols[name]);
        assert FirstSymbol(all, i, name, table[name]);
      } else {
        assert FirstSymbol(all, |standing|, name, table[name]);
      }
    }
  }

  lemma NamesFileAfter<S>(text: map<Ptr, string>, standing: seq<Op<S>>, op: Op<S>, i: nat, name: string)
    requires TextStands(text, standing)
    requires op.AddFile? ==> op.fileName in text
    ensures NamesFile(standing + [op], i, name) <==>
      if i < |standing| then NamesFile(standing, i, name)
      else i == |standing| && op.AddFile? && text[op.fileName] == name
  {
    var all := standing + [op];
    if i <= |standing| { assert all[..i] == standing[..i]; }
    assert standing[..|standing|] == standing;
  }

  lemma FilesStandAfter<S>(c: Content<S>, standing: seq<Op<S>>, op: Op<S>)
    requires TextStands(c.text, standing) && FilesStand(c.files, standing) && IsAddition(op)
    requires op.AddFile? ==> op.fileName in c.text
    ensures FilesStand(Apply(c, op).files, standing + [op])
  {
    var all, table := standing + [op], Apply(c, op).files;
    forall i: nat, name
      ensures NamesFile(all, i, name) <==>
        if i < |standing| then NamesFile(standing, i, name)
        else i == |standing| && op.AddFile? && c.text[op.fileName] == name
    {
      NamesFileAfter(c.text, standing, op, i, name);
    }
    forall name | name in table ensures exists i: nat :: FirstFile(all, i, name, table[name]) {
      if name in c.files {
        var i: nat :| FirstFile(standing, i, name, c.files[name]);
        assert FirstFile(all, i, name, table[name]);
      } else {
        assert FirstFile(all, |standing|, name, table[name]);
      }
    }
  }

  lemma ExtensionsStandAfter<S>(c: Content<S>, standing: seq<Op<S>>, op: Op<S>)
    requires ExtensionsStand(c.extensions, standing) && IsAddition(op)
    ensures ExtensionsStand(Apply(c, op).extensions, standing + [op])
  {
    var all, table := standing + [op], Apply(c, op).extensions;
    forall i: nat, key
      ensures AddsExtension(all, i, key) <==>
        if i < |standing| then AddsExtension(standing, i, key)
        else i == |standing| && op.AddExtension? && op.key == key
    {
    }
    forall key | key in table ensures exists i: nat :: FirstExtension(all, i, key, table[key]) {
      if key in c.extensions {
        var i: nat :| FirstExtension(standing, i, key, c.extensions[key]);
        assert FirstExtension(all, i, key, table[key]);
      } else {
        assert FirstExtension(all, |standing|, key, table[key]);
      }
    }
  }

  /** The current content and every saved copy are what their standing additions give. */
  ghost predicate AllStand<S>(a: Copies<S>, h: History<S>) {
    && Stands(a.current, h.standing) && |h.saved| == |a.saved|
    && forall d | 0 <= d < |a.saved| :: Stands(a.saved[d], h.saved[d])
  }

  lemma StepStands<S>(t: State<S>, a: Copies<S>, h: History<S>, op: Op<S>)
    requires a.current == t.content && |a.saved| == |t.checkpoints| && Enabled(t, op) && AllStand(a, h)
    ensures AllStand(CopyStep(a, op), Standing(h, [op]))
  {
    hide Stands, Apply;
    if IsAddition(op) { AdditionStands(t, h.standing, op); }
  }

  lemma AdditionStands<S>(t: State<S>, standing: seq<Op<S>>, op: Op<S>)
    requires Enabled(t, op) && Stands(t.content, standing) && IsAddition(op)
    ensures Stands(Apply(t.content, op), standing + [op])
  {
    hide Apply, TextStands, SymbolsStand, FilesStand, ExtensionsStand;
    ListsStandAfter(t.content, standing, op);
    SymbolsStandAfter(t.content, standing, op);
    FilesStandAfter(t.content, standing, op);
    ExtensionsStandAfter(t.content, standing, op);
  }

  lemma {:induction false} RunStands<S>(t: State<S>, h: History<S>, ops: seq<Op<S>>)
    requires Valid(t) && RunEnabled(t, ops) && AllStand(Abstract(t), h)
    ensures Stands(Run(t, ops).content, Standing(h, ops).standing)
    decreases |ops|
  {
    if ops == [] {
    } else {
      hide Stands, Valid, Live, CopyStep, Step;
      StepRefinesCopies(t, ops[0]);
      StepStands(t, Abstract(t), h, ops[0]);
      RunStands(Step(t, ops[0]), Standing(h, [ops[0]]), ops[1..]);
    }
  }

  /** Over every run of a new pool, with nested checkpoints, a name maps to the first symbol
      added under it and not rolled back since, and to nothing when there is none; the same
      for files and extensions, and the lists hold what was allocated and still stands. */
  lemma FirstStandingWins<S>(t: State<S>, ops: seq<Op<S>>)
    requires t == State(Content(map[], map[], map[], [], map[], [], [], [], []), [], [], [], [])
    requires Valid(t) && RunEnabled(t, ops)
    ensures
      var c, standing := Run(t, ops).content, Standing(History([], []), ops).standing;
      && (forall name, i: nat :: NamesSymbol(standing, i, name) ==> name in c.symbols)
      && (forall name | name in c.symbols :: exists i: nat :: FirstSymbol(standing, i, name, c.symbols[name]))
      && (forall name, i: nat :: NamesFile(standing, i, name) ==> name in c.files)
      && (forall name | name in c.files :: exists i: nat :: FirstFile(standing, i, name, c.files[name]))
      && (forall key, i: nat :: AddsExtension(standing, i, key) ==> key in c.extensions)
      && (forall key | key in c.extensions :: exists i: nat :: FirstExtension(standing, i, key, c.extensions[key]))
      && c.strings == Addresses(standing, String) && c.messages == Addresses(standing, Message)
      && c.onces == Addresses(standing, OnceDynamic) && c.fileTables == Addresses(standing, FileTables)
      && c.allocations == Addresses(standing, Bytes)
      && forall p, value: string :: p in c.text && c.text[p] == value <==> Op.AllocateString(p, value) in standing
  {
    hide Addresses;
    EmptyStands(t.content);
    RunStands(t, History([], []), ops);
  }

  lemma EmptyStands<S>(c: Content<S>)
    requires c == Content(map[], map[], map[], [], map[], [], [], [], [])
    ensures Stands(c, [])
  {
  }

  // ---------------------------------------------------------------- the class

  /** Erases every key logged from position `from` on; each log entry is read as a live string. */
  method EraseKeys<V>(table: map<string, Keyed<V>>, log: seq<Ptr>, from: nat, text: map<Ptr, string>)
    returns (left: map<string, Keyed<V>>)
    requires from <= |log| && forall p | p in log :: p in text
    ensures left == table - Texts(log[from..], text)
  {
    left := table;
    for i := from to |log|
      invariant left == table - Texts(log[from..i], text)
    {
      assert log[from..i + 1] == log[from..i] + [log[i]];
      TextsOfMore(log[from..i], log[i], text);
      left := left - {text[log[i]]};
    }
    assert log[from..|log|] == log[from..];
  }

  method EraseExtensions(table: map<(Ptr, int), Ptr>, log: seq<(Ptr, int)>, from: nat)
    returns (left: map<(Ptr, int), Ptr>)
    requires from <= |log|
    ensures left == table - (set k | k in log[from..])
  {
    left := table;
    for i := from to |log|
      invariant left == table - (set k | k in log[from..i])
    {
      assert log[from..i + 1] == log[from..i] + [log[i]];
      left := left - {log[i]};
    }
    assert log[from..|log|] == log[from..];
  }

  /** Frees every string allocated from position `from` on, each while it is still live. */
  method DeleteStrings(text: map<Ptr, string>, strings: seq<Ptr>, from: nat) returns (left: map<Ptr, string>)
    requires from <= |strings| && Distinct(strings) && forall p | p in strings :: p in text
    ensures left == text - (set p | p in strings[from..])
  {
    left := text;
    for i := from to |strings|
      invariant left == text - (set p | p in strings[from..i])
      invariant forall j | i <= j < |strings| :: strings[j] in left
    {
      assert strings[from..i + 1] == strings[from..i] + [strings[i]];
      assert strings[i] in left;
      left := left - {strings[i]};
    }
    assert strings[from..|strings|] == strings[from..];
  }

  class Tables<S> {
    var strings: seq<Ptr>
    var text: map<Ptr, string>
    var messages: seq<Ptr>
    var onceDynamics: seq<Ptr>
    var fileTables: seq<Ptr>
    var allocations: seq<Ptr>
    var symbolsByName: map<string, Keyed<S>>
    var filesByName: map<string, Keyed<Ptr>>
    var extensions: map<(Ptr, int), Ptr>
    var checkpoints: seq<CheckPoint>
    var symbolsAfterCheckpoint: seq<Ptr>
    var filesAfterCheckpoint: seq<Ptr>
    var extensionsAfterCheckpoint: seq<(Ptr, int)>

    ghost function Now(): State<S>
      reads this
    {
      State(
        Content(symbolsByName, filesByName, extensions, strings, text, messages, onceDynamics, fileTables, allocations),
        symbolsAfterCheckpoint, filesAfterCheckpoint, extensionsAfterCheckpoint, checkpoints)
    }

    constructor ()
      ensures Now() == State(Content(map[], map[], map[], [], map[], [], [], [], []), [], [], [], [])
      ensures Valid(Now())
    {
      strings, text, messages, onceDynamics, fileTables, allocations := [], map[], [], [], [], [];
      symbolsByName, filesByName, extensions, checkpoints := map[], map[], map[], [];
      symbolsAfterCheckpoint, filesAfterCheckpoint, extensionsAfterCheckpoint := [], [], [];
    }

    method AddCheckpoint()
      requires Valid(Now())
      modifies this`checkpoints
      ensures checkpoints == old(checkpoints) + [CheckPoint(|strings|, |messages|, |onceDynamics|, |fileTables|,
        |allocations|, |symbolsAfterCheckpoint|, |filesAfterCheckpoint|, |extensionsAfterCheckpoint|)]
      ensures Valid(Now()) && Now() == Step(old(Now()), Op.AddCheckpoint)
    {
      CheckpointKeepsValid(Now());
      checkpoints := checkpoints + [CheckPoint(|strings|, |messages|, |onceDynamics|, |fileTables|, |allocations|,
        |symbolsAfterCheckpoint|, |filesAfterCheckpoint|, |extensionsAfterCheckpoint|)];
    }

    method ClearLastCheckpoint()
      requires Valid(Now()) && checkpoints != []
      modifies this`checkpoints
      modifies this`symbolsAfterCheckpoint, this`filesAfterCheckpoint, this`extensionsAfterCheckpoint
      ensures checkpoints == old(checkpoints)[..|old(checkpoints)| - 1]
      ensures checkpoints == [] ==>
        symbolsAfterCheckpoint == [] && filesAfterCheckpoint == [] && extensionsAfterCheckpoint == []
      ensures checkpoints != [] ==>
        unchanged(`symbolsAfterCheckpoint, `filesAfterCheckpoint, `extensionsAfterCheckpoint)
      ensures Valid(Now()) && Now() == Step(old(Now()), Op.ClearLastCheckpoint)
    {
      ClearKeepsValid(Now());
      checkpoints := checkpoints[..|checkpoints| - 1];
      if checkpoints == [] {
        symbolsAfterCheckpoint := [];
        filesAfterCheckpoint := [];
        extensionsAfterCheckpoint := [];
      }
    }

    method RollbackToLastCheckpoint()
      requires Valid(Now()) && checkpoints != []
      modifies this
      ensures Valid(Now()) && Now() == Step(old(Now()), Op.RollbackToLastCheckpoint)
    {
      RollbackKeepsValid(Now());
      UndoSince(checkpoints[|checkpoints| - 1]);
      checkpoints := checkpoints[..|checkpoints| - 1];
    }

    /** The body of a rollback: the logged keys are erased while their strings are still live. */
    method UndoSince(checkpoint: CheckPoint)
      requires Before(checkpoint, Mark(Now())) && Distinct(strings)
      requires forall p | p in symbolsAfterCheckpoint :: p in text
      requires forall p | p in filesAfterCheckpoint :: p in text
      requires forall p | p in strings :: p in text
      modifies this
      ensures Now() == Restore(old(Now()), checkpoint, old(checkpoints))
    {
      EraseLogged(checkpoint);
      FreeAllocated(checkpoint);
    }

    method EraseLogged(checkpoint: CheckPoint)
      requires Before(checkpoint, Mark(Now()))
      requires forall p | p in symbolsAfterCheckpoint :: p in text
      requires forall p | p in filesAfterCheckpoint :: p in text
      modifies this`symbolsByName, this`filesByName, this`extensions
      modifies this`symbolsAfterCheckpoint, this`filesAfterCheckpoint, this`extensionsAfterCheckpoint
      ensures symbolsByName ==
        old(symbolsByName) - Texts(old(symbolsAfterCheckpoint)[checkpoint.pendingSymbols..], text)
      ensures filesByName == old(filesByName) - Texts(old(filesAfterCheckpoint)[checkpoint.pendingFiles..], text)
      ensures extensions ==
        old(extensions) - (set k | k in old(extensionsAfterCheckpoint)[checkpoint.pendingExtensions..])
      ensures symbolsAfterCheckpoint == old(symbolsAfterCheckpoint)[..checkpoint.pendingSymbols]
      ensures filesAfterCheckpoint == old(filesAfterCheckpoint)[..checkpoint.pendingFiles]
      ensures extensionsAfterCheckpoint == old(extensionsAfterCheckpoint)[..checkpoint.pendingExtensions]
    {
      symbolsByName := EraseKeys(symbolsByName, symbolsAfterCheckpoint, checkpoint.pendingSymbols, text);
      filesByName := EraseKeys(filesByName, filesAfterCheckpoint, checkpoint.pendingFiles, text);
      extensions := EraseExtensions(extensions, extensionsAfterCheckpoint, checkpoint.pendingExtensions);
      symbolsAfterCheckpoint := symbolsAfterCheckpoint[..checkpoint.pendingSymbols];
      filesAfterCheckpoint := filesAfterCheckpoint[..checkpoint.pendingFiles];
      extensionsAfterCheckpoint := extensionsAfterCheckpoint[..checkpoint.pendingExtensions];
    }

    method FreeAllocated(checkpoint: CheckPoint)
      requires checkpoint.strings <= |strings| && checkpoint.messages <= |messages|
      requires checkpoint.onces <= |onceDynamics| && checkpoint.fileTables <= |fileTables|
      requires checkpoint.allocations <= |allocations|
      requires Distinct(strings) && forall p | p in strings :: p in text
      modifies this`text, this`strings, this`messages, this`onceDynamics, this`fileTables, this`allocations
      ensures text == old(text) - (set p | p in old(strings)[checkpoint.strings..])
      ensures strings == old(strings)[..checkpoint.strings]
      ensures messages == old(messages)[..checkpoint.messages]
      ensures onceDynamics == old(onceDynamics)[..checkpoint.onces]
      ensures fileTables == old(fileTables)[..checkpoint.fileTables]
      ensures allocations == old(allocations)[..checkpoint.allocations]
    {
      text := DeleteStrings(text, strings, checkpoint.strings);
      strings := strings[..checkpoint.strings];
      messages := messages[..checkpoint.messages];
      onceDynamics := onceDynamics[..checkpoint.onces];
      fileTables := fileTables[..checkpoint.fileTables];
      allocations := allocations[..checkpoint.allocations];
    }

    method AddSymbol(fullName: Ptr, symbol: S) returns (added: bool)
      requires Valid(Now()) && fullName in text
      modifies this`symbolsByName, this`symbolsAfterCheckpoint
      ensures added <==> text[fullName] !in old(symbolsByName)
      ensures added ==> symbolsByName == old(symbolsByName)[text[fullName] := Keyed(fullName, symbol)]
      ensures added ==> symbolsAfterCheckpoint == old(symbolsAfterCheckpoint) + [fullName]
      ensures !added ==> unchanged(this)
      ensures Valid(Now()) && Now() == Step(old(Now()), Op.AddSymbol(fullName, symbol))
    {
      AdditionKeepsValid(Now(), Op.AddSymbol(fullName, symbol));
      if text[fullName] in symbolsByName {
        return false;
      }
      symbolsByName := symbolsByName[text[fullName] := Keyed(fullName, symbol)];
      symbolsAfterCheckpoint := symbolsAfterCheckpoint + [fullName];
      return true;
    }

    method AddFile(name: Ptr, file: Ptr) returns (added: bool)
      requires Valid(Now()) && name in text
      modifies this`filesByName, this`filesAfterCheckpoint
      ensures added <==> text[name] !in old(filesByName)
      ensures added ==> filesByName == old(filesByName)[text[name] := Keyed(name, file)]
      ensures added ==> filesAfterCheckpoint == old(filesAfterCheckpoint) + [name]
      ensures !added ==> unchanged(this)
      ensures Valid(Now()) && Now() == Step(old(Now()), Op.AddFile(name, file))
    {
      AdditionKeepsValid(Now(), Op.AddFile(name, file));
      if text[name] in filesByName {
        return false;
      }
      filesByName := filesByName[text[name] := Keyed(name, file)];
      filesAfterCheckpoint := filesAfterCheckpoint + [name];
      return true;
    }

    method AddExtension(key: (Ptr, int), field: Ptr) returns (added: bool)
      requires Valid(Now())
      modifies this`extensions, this`extensionsAfterCheckpoint
      ensures added <==> key !in old(extensions)
      ensures added ==> extensions == old(extensions)[key := field]
      ensures added ==> extensionsAfterCheckpoint == old(extensionsAfterCheckpoint) + [key]
      ensures !added ==> unchanged(this)
      ensures Valid(Now()) && Now() == Step(old(Now()), Op.AddExtension(key, field))
    {
      AdditionKeepsValid(Now(), Op.AddExtension(key, field));
      if key in extensions {
        return false;
      }
      extensions := extensions[key := field];
      extensionsAfterCheckpoint := extensionsAfterCheckpoint + [key];
      return true;
    }

    /** `result` is the address the heap hands out: any address with no live string at it. */
    method AllocateString(value: string, result: Ptr)
      requires Valid(Now()) && result !in text
      modifies this`text, this`strings
      ensures text == old(text)[result := value] && strings == old(strings) + [result]
      ensures Valid(Now()) && Now() == Step(old(Now()), Op.AllocateString(result, value))
    {
      AdditionKeepsValid(Now(), Op.AllocateString(result, value));
      text := text[result := value];
      strings := strings + [result];
    }

    method AllocateMessage(result: Ptr)
      requires Valid(Now())
      modifies this`messages
      ensures messages == old(messages) + [result]
      ensures Valid(Now()) && Now() == Step(old(Now()), Op.AllocateMessage(result))
    {
      AdditionKeepsValid(Now(), Op.AllocateMessage(result));
      messages := messages + [result];
    }

    method AllocateOnceDynamic(result: Ptr)
      requires Valid(Now())
      modifies this`onceDynamics
      ensures onceDynamics == old(onceDynamics) + [result]
      ensures Valid(Now()) && Now() == Step(old(Now()), Op.AllocateOnceDynamic(result))
    {
      AdditionKeepsValid(Now(), Op.AllocateOnceDynamic(result));
      onceDynamics := onceDynamics + [result];
    }

    method AllocateFileTables(result: Ptr)
      requires Valid(Now())
      modifies this`fileTables
      ensures fileTables == old(fileTables) + [result]
      ensures Valid(Now()) && Now() == Step(old(Now()), Op.AllocateFileTables(result))
    {
      AdditionKeepsValid(Now(), Op.AllocateFileTables(result));
      fileTables := fileTables + [result];
    }

    /** Nothing is allocated for no bytes. */
    method AllocateBytes(size: nat, given: Ptr) returns (result: Option<Ptr>)
      requires Valid(Now())
      modifies this`allocations
      ensures result == if size == 0 then None else Some(given)
      ensures allocations == if size == 0 then old(allocations) else old(allocations) + [given]
      ensures Valid(Now()) && Now() == if size == 0 then old(Now()) else Step(old(Now()), Op.AllocateBytes(given))
    {
      if size == 0 {
        return None;
      }
      AdditionKeepsValid(Now(), Op.AllocateBytes(given));
      allocations := allocations + [given];
      return Some(given);
    }
  }
}
