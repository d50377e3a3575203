/** Resolving a name inside a scope: the innermost enclosing scope that knows the first part
    of the name decides, and only symbols of declared dependencies are seen. */
module SymbolLookup {
  import opened Options
  import PublicImports

  type File = PublicImports.File

  datatype Kind = Message | Field | Oneof | Enum | EnumValue | Service | Method | Package

  datatype Symbol = Symbol(kind: Kind, file: File)

  datatype Mode = LookupAll | LookupTypes

  predicate IsType(s: Symbol) {
    s.kind == Message || s.kind == Enum
  }

  predicate IsAggregate(s: Symbol) {
    s.kind == Message || s.kind == Package || s.kind == Enum || s.kind == Service
  }

  /** What a file's builder can see: the symbols of the pool, and, when dependencies are
      enforced, its own file, the files it may use and the package of each. */
  datatype Env = Env(
    symbols: map<string, Symbol>, enforce: bool, file: File, deps: set<File>, packages: map<File, string>)

  // ---------------------------------------------------------------- dotted names

  function FirstDot(s: string): (i: Option<nat>)
    ensures i == None <==> '.' !in s
    ensures i.Some? ==> i.value < |s| && s[i.value] == '.' && '.' !in s[..i.value]
  {
    if s == "" then None
    else if s[0] == '.' then Some(0)
    else match FirstDot(s[1..])
      case None => None
      case Some(i) => assert s[..i + 1] == [s[0]] + s[1..][..i]; Some(i + 1)
  }

  function LastDot(s: string): (i: Option<nat>)
    ensures i == None <==> '.' !in s
    ensures i.Some? ==> i.value < |s| && s[i.value] == '.' && '.' !in s[i.value + 1..]
  {
    if s == "" then None
    else
      var n := |s| - 1;
      if s[n] == '.' then Some(n)
      else match LastDot(s[..n])
        case None => assert s == s[..n] + [s[n]]; None
        case Some(i) => assert s[i + 1..] == s[..n][i + 1..] + [s[n]]; Some(i)
  }

  function Split(s: string): (parts: seq<string>)
    ensures parts != [] && forall p | p in parts :: '.' !in p
    decreases |s|
  {
    match FirstDot(s)
    case None => [s]
    case Some(i) => [s[..i]] + Split(s[i + 1..])
  }

  function Join(parts: seq<string>): string
    requires parts != []
  {
    if |parts| == 1 then parts[0] else parts[0] + "." + Join(parts[1..])
  }

  lemma {:induction false} JoinSplit(s: string)
    ensures Join(Split(s)) == s
    decreases |s|
  {
    match FirstDot(s)
    case None =>
    case Some(i) =>
      JoinSplit(s[i + 1..]);
      assert Split(s)[1..] == Split(s[i + 1..]);
      assert s == s[..i] + "." + s[i + 1..];
  }

  lemma {:induction false} JoinSnoc(parts: seq<string>, last: string)
    requires parts != []
    ensures Join(parts + [last]) == Join(parts) + "." + last
  {
    var all := parts + [last];
    if |parts| == 1 {
      assert all[1..] == [last];
    } else {
      assert all[1..] == parts[1..] + [last];
      JoinSnoc(parts[1..], last);
      assert all[0] + "." + (Join(parts[1..]) + "." + last) == all[0] + "." + Join(parts[1..]) + "." + last;
    }
  }

  lemma {:induction false} LastDotUnique(front: string, last: string)
    requires '.' !in last
    ensures LastDot(front + "." + last) == Some(|front|)
    decreases |last|
  {
    var s := front + "." + last;
    if last != "" {
      var m := |last| - 1;
      assert s[..|s| - 1] == front + "." + last[..m] && s[|s| - 1] == last[m];
      LastDotUnique(front, last[..m]);
    }
  }

  /** A name is a package or a parent of it exactly when its parts are first among the
      package's parts. */
  predicate InPackage(package: string, name: string) {
    name <= package && (|package| == |name| || package[|name|] == '.')
  }

  lemma {:induction false} InPackageIffPartsPrefix(package: string, name: string)
    ensures InPackage(package, name) <==> Split(name) <= Split(package)
    decreases |name|
  {
    hide InPackage, FirstDot;
    if FirstDot(name) == None {
      PlainName(package, name);
    } else if FirstDot(package) == None {
      PlainPackage(package, name);
      assert |Split(package)| == 1 && |Split(name)| >= 2;
    } else {
      var i, j := FirstDot(name).value, FirstDot(package).value;
      var rest, tail := name[i + 1..], package[j + 1..];
      FirstParts(package, name);
      InPackageIffPartsPrefix(tail, rest);
      PrefixStep(name[..i], Split(rest), package[..j], Split(tail));
    }
  }

  lemma PrefixStep(a: string, rest: seq<string>, b: string, tail: seq<string>)
    ensures [a] + rest <= [b] + tail <==> a == b && rest <= tail
  {
    if [a] + rest <= [b] + tail {
      assert ([a] + rest)[0] == ([b] + tail)[0];
      assert rest == ([a] + rest)[1..] && tail == ([b] + tail)[1..];
      assert forall k | 0 <= k < |rest| :: rest[k] == ([a] + rest)[k + 1] && tail[k] == ([b] + tail)[k + 1];
    }
  }

  lemma PlainName(package: string, name: string)
    requires FirstDot(name) == None
    ensures InPackage(package, name) <==> [name] <= Split(package)
  {
    assert [name] <= Split(package) <==> Split(package)[0] == name;
    if InPackage(package, name) {
      if |package| > |name| {
        assert package[|name|] == '.';
        var j := FirstDot(package).value;
        assert j >= |name| by {
          assert forall k | 0 <= k < |name| :: package[k] == name[k];
        }
        assert j <= |name| by {
          assert forall k | 0 <= k < j :: package[..j][k] == package[k];
        }
      }
    }
  }

  lemma PlainPackage(package: string, name: string)
    requires FirstDot(package) == None && FirstDot(name).Some?
    ensures !InPackage(package, name)
  {
    assert name[FirstDot(name).value] == '.';
    assert forall k | 0 <= k < |package| :: package[k] in package && package[k] != '.';
  }

  lemma SameFirstPart(a: string, rest: string, b: string, tail: string)
    requires '.' !in a && '.' !in b && a + "." + rest <= b + "." + tail
    ensures |a| == |b|
  {
    var n, p := a + "." + rest, b + "." + tail;
    assert n[|a|] == '.' && p[|b|] == '.' && p[|a|] == n[|a|];
    assert forall k | 0 <= k < |a| :: n[k] == a[k] && a[k] in a && n[k] == p[k];
    assert forall k | 0 <= k < |b| :: p[k] == b[k] && b[k] in b;
  }

  lemma PrefixesFromFirstPart(a: string, rest: string, b: string, tail: string)
    requires |a| == |b|
    ensures a + "." + rest <= b + "." + tail <==> a == b && rest <= tail
  {
    var n, p := a + "." + rest, b + "." + tail;
    assert n[..|a|] == a && n[|a| + 1..] == rest && p[..|b|] == b && p[|b| + 1..] == tail;
    if n <= p {
      assert n == p[..|n|];
      assert a == p[..|n|][..|a|] == b;
      assert rest == p[..|n|][|a| + 1..] == tail[..|rest|];
    }
    if a == b && rest <= tail {
      assert p[..|n|] == b + "." + tail[..|rest|];
    }
  }

  /** Both names up to their first dots, then the rest. */
  lemma FirstParts(package: string, name: string)
    requires FirstDot(package).Some? && FirstDot(name).Some?
    ensures var i, j := FirstDot(name).value, FirstDot(package).value;
      InPackage(package, name) <==> name[..i] == package[..j] && InPackage(package[j + 1..], name[i + 1..])
  {
    hide FirstDot, InPackage;
    var i, j := FirstDot(name).value, FirstDot(package).value;
    var a, rest, b, tail := name[..i], name[i + 1..], package[..j], package[j + 1..];
    assert name == a + "." + rest && package == b + "." + tail;
    JoinedInPackage(a, rest, b, tail);
  }

  lemma JoinedInPackage(a: string, rest: string, b: string, tail: string)
    requires '.' !in a && '.' !in b
    ensures InPackage(b + "." + tail, a + "." + rest) <==> a == b && InPackage(tail, rest)
  {
    var n, p := a + "." + rest, b + "." + tail;
    if n <= p { SameFirstPart(a, rest, b, tail); }
    if |a| == |b| {
      PrefixesFromFirstPart(a, rest, b, tail);
      assert |tail| > |rest| ==> p[|n|] == tail[|rest|];
    }
  }

  // ---------------------------------------------------------------- finding one full name

  /** With enforcement, a symbol counts when it is from this file or one it may use, or is a
      package of one of those. */
  predicate Declared(env: Env, s: Symbol, name: string) {
    || s.file == env.file || s.file in env.deps
    || (s.kind == Package &&
        exists f | f in env.deps + {env.file} :: f in env.packages && InPackage(env.packages[f], name))
  }

  function Find(env: Env, name: string): Option<Symbol> {
    if name !in env.symbols then None
    else if env.enforce && !Declared(env, env.symbols[name], name) then None
    else Some(env.symbols[name])
  }

  // ---------------------------------------------------------------- the innermost scope

  /** The part of a name before its first dot. */
  function Head(name: string): string {
    match FirstDot(name) case None => name case Some(i) => name[..i]
  }

  /** The name as seen from a scope; the empty scope is the root. */
  function InScope(scope: seq<string>, name: string): string {
    if scope == [] then name else Join(scope) + "." + name
  }

  /** A scope decides when it knows the first part of the name, and that part can hold the rest
      of a compound name or, where only types are looked for, is a type. */
  predicate Decides(env: Env, scope: seq<string>, name: string, mode: Mode) {
    || scope == []
    || match Find(env, InScope(scope, Head(name)))
       case None => false
       case Some(s) =>
         if Head(name) != name then IsAggregate(s) else mode == LookupTypes ==> IsType(s)
  }

  /** The innermost of the enclosing scopes that decides, as a number of parts. */
  function Deciding(env: Env, parts: seq<string>, k: nat, name: string, mode: Mode): (j: nat)
    requires k <= |parts|
    ensures j <= k && Decides(env, parts[..j], name, mode)
    ensures forall i | j < i <= k :: !Decides(env, parts[..i], name, mode)
  {
    if Decides(env, parts[..k], name, mode) then k else Deciding(env, parts, k - 1, name, mode)
  }

  /** The full name a lookup settles on: looked up from the root when it starts with a dot, and
      otherwise in the innermost scope around the last part of `relativeTo` that decides. */
  function Settled(env: Env, name: string, relativeTo: string, mode: Mode): string {
    if name != "" && name[0] == '.' then name[1..]
    else
      var parts := Split(relativeTo);
      InScope(parts[..Deciding(env, parts, |parts| - 1, name, mode)], name)
  }

  lemma HeadShorter(name: string)
    ensures |Head(name)| <= |name| && (|Head(name)| < |name| <==> Head(name) != name)
    ensures name[..|Head(name)|] == Head(name)
  {
  }

  // ---------------------------------------------------------------- the builder

  /** What a lookup leaves behind for warnings and error messages. */
  datatype Notes = Notes(unused: set<File>, undeclared: Option<File>, undeclaredName: string)

  function NoteOf(env: Env, notes: Notes, name: string): Notes {
    if name !in env.symbols || !env.enforce then notes
    else
      var s := env.symbols[name];
      if s.file == env.file || s.file in env.deps then notes.(unused := notes.unused - {s.file})
      else if Declared(env, s, name) then notes
      else notes.(undeclared := Some(s.file), undeclaredName := name)
  }

  function NotesOf(env: Env, notes: Notes, names: seq<string>): Notes
    decreases |names|
  {
    if names == [] then notes else NotesOf(env, NoteOf(env, notes, names[0]), names[1..])
  }

  lemma NotesOfFirst(env: Env, notes: Notes, first: string, rest: seq<string>)
    ensures NotesOf(env, notes, [first] + rest) == NotesOf(env, NoteOf(env, notes, first), rest)
    ensures NotesOf(env, notes, [first]) == NoteOf(env, notes, first)
  {
    hide NoteOf;
    assert ([first] + rest)[1..] == rest && [first][1..] == [];
  }

  /** The names a search from scope `k` outwards asks for, in order. */
  function Asked(env: Env, parts: seq<string>, k: nat, name: string, mode: Mode): seq<string>
    requires k <= |parts|
  {
    if k == 0 then [name]
    else
      var first := InScope(parts[..k], Head(name));
      if !Decides(env, parts[..k], name, mode) then [first] + Asked(env, parts, k - 1, name, mode)
      else if Head(name) != name then [first, InScope(parts[..k], name)]
      else [first]
  }

  class Builder {
    const env: Env
    var notes: Notes
    var undefineResolvedName: string

    constructor (env: Env, unused: set<File>)
      ensures this.env == env && notes == Notes(unused, None, "") && undefineResolvedName == ""
    {
      this.env := env;
      notes, undefineResolvedName := Notes(unused, None, ""), "";
    }

    method FindSymbol(name: string) returns (result: Option<Symbol>)
      modifies this`notes
      ensures result == Find(env, name) && notes == NoteOf(env, old(notes), name)
      ensures result.Some? ==> name in env.symbols && result.value == env.symbols[name]
      ensures name !in env.symbols || !env.enforce ==> (result.None? <==> name !in env.symbols) && notes == old(notes)
      ensures name in env.symbols && env.enforce ==>
        var s := env.symbols[name];
        if s.file == env.file || s.file in env.deps then
          result.Some? && notes == old(notes).(unused := old(notes).unused - {s.file})
        else
          (result.Some? <==> s.kind == Package && exists f | f in env.deps + {env.file} ::
            f in env.packages && Split(name) <= Split(env.packages[f])) &&
          notes ==
            if result.Some? then old(notes) else old(notes).(undeclared := Some(s.file), undeclaredName := name)
    {
      hide InPackage, Split;
      PackageFoundIff(env, name);
      if name !in env.symbols {
        return None;
      }
      var s := env.symbols[name];
      if !env.enforce {
        return Some(s);
      }
      if s.file == env.file || s.file in env.deps {
        notes := notes.(unused := notes.unused - {s.file});
        return Some(s);
      }
      if s.kind == Package {
        if env.file in env.packages && InPackage(env.packages[env.file], name) {
          return Some(s);
        }
        var todo := env.deps;
        while todo != {}
          invariant todo <= env.deps
          invariant forall f | f in env.deps - todo :: f !in env.packages || !InPackage(env.packages[f], name)
          decreases |todo|
        {
          var it :| it in todo;
          if it in env.packages && InPackage(env.packages[it], name) {
            return Some(s);
          }
          todo := todo - {it};
        }
      }
      notes := notes.(undeclared := Some(s.file), undeclaredName := name);
      return None;
    }

    /** Symbols are asked for from the innermost scope outwards; the scope that decides answers
        for the whole name, even when it does not know the rest of it. */
    method LookupSymbolNoPlaceholder(name: string, relativeTo: string, mode: Mode) returns (result: Option<Symbol>)
      modifies this
      ensures result == Find(env, Settled(env, name, relativeTo, mode))
      ensures notes == NotesOf(env, old(notes).(undeclared := None), AllAsked(env, name, relativeTo, mode))
      ensures undefineResolvedName == Unresolved(env, name, relativeTo, mode)
      ensures name != "" && name[0] == '.' ==> result == Find(env, name[1..]) && undefineResolvedName == ""
    {
      hide Split, Join, Deciding, Decides, Find, NoteOf, NotesOf, Asked, IsAggregate, IsType, Head, FirstDot, LastDot;
      notes := notes.(undeclared := None);
      undefineResolvedName := "";
      if name != "" && name[0] == '.' {
        result := FindSymbol(name[1..]);
        NotesOfFirst(env, old(notes).(undeclared := None), name[1..], []);
        return;
      }
      var firstPart := Head(name);
      HeadShorter(name);
      var scope := relativeTo;
      ghost var parts := Split(relativeTo);
      ghost var k := |parts|;
      JoinSplit(relativeTo);
      assert parts[..k] == parts;
      while true
        invariant 1 <= k <= |parts| && scope == Join(parts[..k])
        invariant Deciding(env, parts, |parts| - 1, name, mode) == Deciding(env, parts, k - 1, name, mode)
        invariant NotesOf(env, notes, Asked(env, parts, k - 1, name, mode)) ==
          NotesOf(env, old(notes).(undeclared := None), Asked(env, parts, |parts| - 1, name, mode))
        invariant undefineResolvedName == ""
        decreases k
      {
        OuterScope(parts, k);
        var dot := LastDot(scope);
        k := k - 1;
        DecidingStep(env, parts, k, name, mode);
        AskedStep(env, parts, k, name, mode, notes);
        if dot == None {
          result := FindSymbol(name);
          return;
        }
        scope := scope[..dot.value];
        var found := FindSymbol(scope + "." + firstPart);
        if found.Some? {
          if |firstPart| < |name| {
            if IsAggregate(found.value) {
              assert scope + "." + firstPart + name[|firstPart|..] == scope + "." + name;
              result := FindSymbol(scope + "." + firstPart + name[|firstPart|..]);
              if result == None {
                undefineResolvedName := scope + "." + firstPart + name[|firstPart|..];
              }
              return;
            }
          } else if mode == LookupTypes && !IsType(found.value) {
          } else {
            return found;
          }
        }
      }
    }
  }

  function AllAsked(env: Env, name: string, relativeTo: string, mode: Mode): seq<string> {
    if name != "" && name[0] == '.' then [name[1..]]
    else Asked(env, Split(relativeTo), |Split(relativeTo)| - 1, name, mode)
  }

  /** The full name an inner scope claimed but could not resolve. */
  function Unresolved(env: Env, name: string, relativeTo: string, mode: Mode): string {
    if name != "" && name[0] == '.' then ""
    else
      var parts := Split(relativeTo);
      var j := Deciding(env, parts, |parts| - 1, name, mode);
      if j > 0 && Find(env, InScope(parts[..j], name)) == None then InScope(parts[..j], name) else ""
  }

  lemma DecidingStep(env: Env, parts: seq<string>, k: nat, name: string, mode: Mode)
    requires k <= |parts|
    ensures k == 0 ==> Deciding(env, parts, k, name, mode) == 0
    ensures k > 0 ==>
      var found := Find(env, Join(parts[..k]) + "." + Head(name));
      var decides := found.Some? &&
        if Head(name) != name then IsAggregate(found.value) else mode == LookupTypes ==> IsType(found.value);
      Deciding(env, parts, k, name, mode) == if decides then k else Deciding(env, parts, k - 1, name, mode)
  {
    hide Find, Join, Head, IsAggregate, IsType;
  }

  lemma AskedStep(env: Env, parts: seq<string>, k: nat, name: string, mode: Mode, notes: Notes)
    requires k <= |parts|
    ensures k == 0 ==> NotesOf(env, notes, Asked(env, parts, k, name, mode)) == NoteOf(env, notes, name)
    ensures k > 0 ==>
      var first := Join(parts[..k]) + "." + Head(name);
      var found := Find(env, first);
      var decides := found.Some? &&
        if Head(name) != name then IsAggregate(found.value) else mode == LookupTypes ==> IsType(found.value);
      NotesOf(env, notes, Asked(env, parts, k, name, mode)) ==
        if !decides then NotesOf(env, NoteOf(env, notes, first), Asked(env, parts, k - 1, name, mode))
        else if Head(name) != name then NoteOf(env, NoteOf(env, notes, first), Join(parts[..k]) + "." + name)
        else NoteOf(env, notes, first)
  {
    hide Find, Join, Head, IsAggregate, IsType, NoteOf, NotesOf;
    if k == 0 {
      NotesOfFirst(env, notes, name, []);
    } else {
      var first := Join(parts[..k]) + "." + Head(name);
      assert parts[..k] != [];
      NotesOfFirst(env, notes, first, Asked(env, parts, k - 1, name, mode));
      NotesOfFirst(env, notes, first, [InScope(parts[..k], name)]);
      NotesOfFirst(env, NoteOf(env, notes, first), InScope(parts[..k], name), []);
      assert [first] + [InScope(parts[..k], name)] == [first, InScope(parts[..k], name)];
    }
  }

  /** Cutting a scope at its last dot leaves the next scope out. */
  lemma OuterScope(parts: seq<string>, k: nat)
    requires 1 <= k <= |parts| && forall p | p in parts :: '.' !in p
    ensures k == 1 ==> LastDot(Join(parts[..k])) == None
    ensures k > 1 ==> LastDot(Join(parts[..k])) == Some(|Join(parts[..k - 1])|)
    ensures k > 1 ==> Join(parts[..k])[..|Join(parts[..k - 1])|] == Join(parts[..k - 1])
  {
    if k > 1 {
      assert parts[..k] == parts[..k - 1] + [parts[k - 1]];
      JoinSnoc(parts[..k - 1], parts[k - 1]);
      LastDotUnique(Join(parts[..k - 1]), parts[k - 1]);
    }
  }

  // ---------------------------------------------------------------- what a lookup means

  /** A name that does not start with a dot resolves in one scope only: the innermost around
      the last part of the scope's name that decides. Nothing further out is looked at, whether
      or not the rest of the name is found there; nothing further in decided. */
  lemma InnermostDecides(env: Env, name: string, relativeTo: string, mode: Mode, j: nat)
    requires name == "" || name[0] != '.'
    requires j < |Split(relativeTo)|
    requires Decides(env, Split(relativeTo)[..j], name, mode)
    requires forall i | j < i < |Split(relativeTo)| :: !Decides(env, Split(relativeTo)[..i], name, mode)
    ensures Settled(env, name, relativeTo, mode) == InScope(Split(relativeTo)[..j], name)
  {
    hide Split, Decides;
  }

  /** The parts up to `j` of a dotted name, joined: the first part, then those of the rest. */
  lemma ScopesOf(s: string, j: nat)
    requires FirstDot(s).Some? && 1 <= j < |Split(s)|
    ensures var i := FirstDot(s).value;
      && |Split(s)| == 1 + |Split(s[i + 1..])|
      && (j == 1 ==> Join(Split(s)[..j]) == s[..i])
      && (j > 1 ==> Join(Split(s)[..j]) == s[..i] + "." + Join(Split(s[i + 1..])[..j - 1]))
  {
    hide FirstDot;
    var i := FirstDot(s).value;
    var rest := Split(s[i + 1..]);
    assert Split(s) == [s[..i]] + rest;
    assert Split(s)[..j] == [s[..i]] + rest[..j - 1];
    assert Split(s)[..j][1..] == rest[..j - 1];
  }

  /** Cutting at a dot of the rest is cutting at a dot of the whole. */
  lemma CutAfter(s: string, i: nat, n: nat)
    requires i < |s| && s[i] == '.' && i + 1 + n < |s|
    ensures s[i + 1..][n] == s[i + 1 + n] && s[..i + 1 + n] == s[..i] + "." + s[i + 1..][..n]
  {
  }

  lemma {:induction false} DotEndsScope(s: string, d: nat) returns (j: nat)
    requires d < |s| && s[d] == '.'
    ensures 1 <= j < |Split(s)| && Join(Split(s)[..j]) == s[..d]
    decreases |s|
  {
    hide FirstDot, Join, Split;
    FirstPartAlone(s);
    var i := FirstDot(s).value;
    if d <= i {
      assert forall k | 0 <= k < i :: s[k] in s[..i];
      j := 1;
    } else {
      CutAfter(s, i, d - i - 1);
      var k := DotEndsScope(s[i + 1..], d - i - 1);
      j := k + 1;
    }
    ScopesOf(s, j);
  }

  lemma FirstPartAlone(s: string)
    ensures if FirstDot(s).None? then |Split(s)| == 1 else |Split(s)| == 1 + |Split(s[FirstDot(s).value + 1..])|
  {
    hide FirstDot;
  }

  lemma {:induction false} ScopeEndsAtDot(s: string, j: nat)
    requires 1 <= j < |Split(s)|
    ensures var scope := Join(Split(s)[..j]);
      |scope| < |s| && s[|scope|] == '.' && s[..|scope|] == scope
    decreases |s|
  {
    hide FirstDot, Join, Split;
    FirstPartAlone(s);
    ScopesOf(s, j);
    var i := FirstDot(s).value;
    if j > 1 {
      var inner := Join(Split(s[i + 1..])[..j - 1]);
      ScopeEndsAtDot(s[i + 1..], j - 1);
      CutAfter(s, i, |inner|);
      assert |s[..i] + "." + inner| == i + 1 + |inner|;
    }
  }

  lemma {:induction false} InnerScopeLonger(parts: seq<string>, j: nat, i: nat)
    requires 1 <= j < i <= |parts|
    ensures |Join(parts[..j])| < |Join(parts[..i])|
    decreases i
  {
    assert parts[..i] == parts[..i - 1] + [parts[i - 1]];
    JoinSnoc(parts[..i - 1], parts[i - 1]);
    if j < i - 1 { InnerScopeLonger(parts, j, i - 1); }
  }

  /** The scopes further in than one dot of `s` are those of the dots after it. */
  lemma InnerScopes(s: string, d: nat, j: nat)
    requires 1 <= j < |Split(s)| && d < |s| && Join(Split(s)[..j]) == s[..d]
    ensures forall i | j < i < |Split(s)| ::
      var e := |Join(Split(s)[..i])|;
      d < e < |s| && s[e] == '.' && s[..e] == Join(Split(s)[..i])
  {
    hide Split, Join;
    forall i | j < i < |Split(s)|
      ensures var e := |Join(Split(s)[..i])|;
        d < e < |s| && s[e] == '.' && s[..e] == Join(Split(s)[..i])
    {
      ScopeEndsAtDot(s, i);
      InnerScopeLonger(Split(s), j, i);
    }
  }

  /** A name of several parts, seen from `relativeTo`: the innermost enclosing scope in which its
      first part is a message, a package, an enum or a service answers for the whole name; on the
      way there a first part that is a field, a oneof, an enum value or a method is passed over. */
  lemma CompoundInnermost(env: Env, first: string, rest: string, relativeTo: string, mode: Mode, d: nat)
    requires first != "" && '.' !in first
    requires d < |relativeTo| && relativeTo[d] == '.'
    requires Find(env, relativeTo[..d] + "." + first).Some?
    requires Find(env, relativeTo[..d] + "." + first).value.kind in {Message, Package, Enum, Service}
    requires forall e | d < e < |relativeTo| && relativeTo[e] == '.' ::
      var inner := Find(env, relativeTo[..e] + "." + first);
      inner.Some? ==> inner.value.kind in {Kind.Field, Oneof, EnumValue, Method}
    ensures var whole := relativeTo[..d] + "." + first + "." + rest;
      && Find(env, Settled(env, first + "." + rest, relativeTo, mode)) == Find(env, whole)
      && Unresolved(env, first + "." + rest, relativeTo, mode) == if Find(env, whole) == None then whole else ""
  {
    hide Split, Join, Find, FirstDot;
    var name, parts := first + "." + rest, Split(relativeTo);
    HeadOfCompound(first, rest);
    var j := DotEndsScope(relativeTo, d);
    InnerScopes(relativeTo, d, j);
    InnermostDecides(env, name, relativeTo, mode, j);
    assert relativeTo[..d] + "." + name == relativeTo[..d] + "." + first + "." + rest;
  }

  /** When its first part is none of these in any enclosing scope, the name is looked up from the root. */
  lemma CompoundFromRoot(env: Env, first: string, rest: string, relativeTo: string, mode: Mode)
    requires first != "" && '.' !in first
    requires forall e | 0 <= e < |relativeTo| && relativeTo[e] == '.' ::
      var inner := Find(env, relativeTo[..e] + "." + first);
      inner.Some? ==> inner.value.kind in {Kind.Field, Oneof, EnumValue, Method}
    ensures Settled(env, first + "." + rest, relativeTo, mode) == first + "." + rest
    ensures Unresolved(env, first + "." + rest, relativeTo, mode) == ""
  {
    hide Split, Join, Find, FirstDot;
    HeadOfCompound(first, rest);
    forall i | 0 < i < |Split(relativeTo)|
      ensures !Decides(env, Split(relativeTo)[..i], first + "." + rest, mode)
    {
      ScopeEndsAtDot(relativeTo, i);
    }
    InnermostDecides(env, first + "." + rest, relativeTo, mode, 0);
  }

  lemma HeadOfCompound(first: string, rest: string)
    requires '.' !in first
    ensures Head(first + "." + rest) == first
  {
    var name := first + "." + rest;
    var i := FirstDot(name).value;
    assert name[|first|] == '.' && name[i] == '.';
    assert forall k | 0 <= k < |first| :: name[k] == first[k] && first[k] in first;
    assert forall k | 0 <= k < i :: name[k] in name[..i];
  }

  /** A name of one part: where types are looked for, exactly a message and an enum settle it;
      otherwise anything does. */
  lemma PlainInnermost(env: Env, name: string, relativeTo: string, mode: Mode, d: nat)
    requires '.' !in name
    requires d < |relativeTo| && relativeTo[d] == '.'
    requires Find(env, relativeTo[..d] + "." + name).Some?
    requires mode == LookupTypes ==> Find(env, relativeTo[..d] + "." + name).value.kind in {Message, Enum}
    requires forall e | d < e < |relativeTo| && relativeTo[e] == '.' ::
      var inner := Find(env, relativeTo[..e] + "." + name);
      inner.Some? ==>
        mode == LookupTypes && inner.value.kind in {Kind.Field, Oneof, EnumValue, Service, Method, Package}
    ensures Find(env, Settled(env, name, relativeTo, mode)) == Find(env, relativeTo[..d] + "." + name)
    ensures Unresolved(env, name, relativeTo, mode) == ""
  {
    hide Split, Join, Find;
    var j := DotEndsScope(relativeTo, d);
    InnerScopes(relativeTo, d, j);
    InnermostDecides(env, name, relativeTo, mode, j);
  }

  lemma PlainFromRoot(env: Env, name: string, relativeTo: string, mode: Mode)
    requires '.' !in name
    requires forall e | 0 <= e < |relativeTo| && relativeTo[e] == '.' ::
      var inner := Find(env, relativeTo[..e] + "." + name);
      inner.Some? ==>
        mode == LookupTypes && inner.value.kind in {Kind.Field, Oneof, EnumValue, Service, Method, Package}
    ensures Settled(env, name, relativeTo, mode) == name && Unresolved(env, name, relativeTo, mode) == ""
  {
    hide Split, Join, Find;
    forall i | 0 < i < |Split(relativeTo)| ensures !Decides(env, Split(relativeTo)[..i], name, mode) {
      ScopeEndsAtDot(relativeTo, i);
    }
    InnermostDecides(env, name, relativeTo, mode, 0);
  }

  /** Looking for types, an unqualified name never resolves to something else inside a scope. */
  lemma TypesOnly(env: Env, name: string, relativeTo: string)
    requires name != "" && '.' !in name
    requires Find(env, Settled(env, name, relativeTo, LookupTypes)).Some?
    requires Settled(env, name, relativeTo, LookupTypes) != name
    ensures IsType(Find(env, Settled(env, name, relativeTo, LookupTypes)).value)
  {
    hide Split, Join, Find, IsType;
  }

  /** Building a file: its dependencies are recorded and then a name is looked up. A symbol
      that is not a package is found exactly when its file is the one being built or is reached
      from a direct dependency by public imports. */
  method FindInBuild(symbols: map<string, Symbol>, file: File, packages: map<File, string>,
      direct: seq<Option<File>>, unused: set<File>, recorded: PublicImports.Dependencies, name: string)
    returns (found: Option<Symbol>)
    requires PublicImports.Closed(recorded.imports)
    requires forall d | d in direct && d.Some? :: d.value in recorded.imports
    modifies recorded
    ensures found.Some? ==> name in symbols && found.value == symbols[name]
    ensures name in symbols && symbols[name].kind != Package ==>
      var declared := symbols[name].file;
      found.Some? <==> declared == file || PublicImports.Reachable(recorded.imports, direct, declared)
  {
    hide PublicImports.Reachable, PublicImports.Closed;
    recorded.RecordAll(direct);
    var builder := new Builder(Env(symbols, true, file, recorded.dependencies, packages), unused);
    found := builder.FindSymbol(name);
  }

  /** Enforcement: a package is found when, besides, the file being built or one it may use
      has a package whose first parts spell it. */
  lemma PackageFoundIff(env: Env, name: string)
    ensures env.enforce && name in env.symbols && env.symbols[name].kind == Package ==>
      (Find(env, name).Some? <==>
      var s := env.symbols[name];
      || s.file == env.file || s.file in env.deps
      || exists f | f in env.deps + {env.file} :: f in env.packages && Split(name) <= Split(env.packages[f]))
  {
    hide Split, InPackage;
    forall f | f in env.packages
      ensures InPackage(env.packages[f], name) <==> Split(name) <= Split(env.packages[f])
    {
      InPackageIffPartsPrefix(env.packages[f], name);
    }
  }
}
