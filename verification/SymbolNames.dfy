/** Dotted symbol names, their byte order and the parent relation between them. */
module SymbolNames {

  predicate ValidChar(c: char) {
    c == '.' || c == '_' || '0' <= c <= '9' || 'A' <= c <= 'Z' || 'a' <= c <= 'z'
  }

  predicate ValidName(name: string) {
    forall i | 0 <= i < |name| :: ValidChar(name[i])
  }

  /** The strict order `std::map<string, ...>` sorts its keys by. */
  predicate Less(a: string, b: string) {
    b != "" && (a == "" || a[0] < b[0] || (a[0] == b[0] && Less(a[1..], b[1..])))
  }

  /** True when `parent` equals `name` or is a dotted parent of it ("foo.bar" of "foo.bar.baz"). */
  predicate IsSubSymbol(parent: string, name: string) {
    parent == name || (parent < name && name[|parent|] == '.')
  }

  lemma SubSymbolMeans(parent: string, name: string)
    ensures IsSubSymbol(parent, name) <==> parent == name || parent + "." <= name
  {
    if IsSubSymbol(parent, name) && parent != name {
      assert name[..|parent|] + [name[|parent|]] == parent + ".";
    }
    if parent + "." <= name {
      assert name[|parent|] == (parent + ".")[|parent|];
      assert name[..|parent|] == (parent + ".")[..|parent|] == parent;
    }
  }

  lemma {:induction false} LessTotal(a: string, b: string)
    ensures Less(a, b) || a == b || Less(b, a)
    ensures !(Less(a, b) && Less(b, a))
    ensures !Less(a, a)
  {
    if a != "" && b != "" {
      LessTotal(a[1..], b[1..]);
      LessTotal(a[1..], a[1..]);
      assert a == [a[0]] + a[1..] && b == [b[0]] + b[1..];
    } else if a != "" {
      LessTotal(a[1..], a[1..]);
    }
  }

  lemma {:induction false} LessTransitive(a: string, b: string, c: string)
    requires Less(a, b) && Less(b, c)
    ensures Less(a, c)
  {
    if a != "" && a[0] == b[0] && b[0] == c[0] {
      LessTransitive(a[1..], b[1..], c[1..]);
    }
  }

  /** A proper prefix sorts first. */
  lemma {:induction false} PrefixSortsFirst(a: string, b: string)
    requires a < b
    ensures Less(a, b)
  {
    if a != "" {
      PrefixSortsFirst(a[1..], b[1..]);
    }
  }

  /** Nothing that sorts between a name and one of its descendants escapes from under
      that name: '.' sorts before every other character of a valid name. */
  lemma {:induction false} BetweenParentAndChild(parent: string, between: string, child: string)
    requires IsSubSymbol(parent, child) && parent != child
    requires parent == between || Less(parent, between)
    requires between == child || Less(between, child)
    requires ValidName(between)
    ensures IsSubSymbol(parent, between)
  {
    if between != child && parent != between {
      if parent == "" {
        assert between[0] <= child[0] == '.';
        assert ValidChar(between[0]);
      } else {
        LessTotal(between, parent);
        assert parent[0] == child[0];
        assert between[0] == parent[0];
        assert parent == [parent[0]] + parent[1..] && between == [between[0]] + between[1..];
        assert child == [child[0]] + child[1..];
        BetweenParentAndChild(parent[1..], between[1..], child[1..]);
      }
    }
  }

  lemma {:induction false} SubSymbolTransitive(a: string, b: string, c: string)
    requires IsSubSymbol(a, b) && IsSubSymbol(b, c)
    ensures IsSubSymbol(a, c)
  {
    if a != b && b != c {
      assert c[..|a|] == b[..|a|] == a;
    }
  }
}
