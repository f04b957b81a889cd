/** The order of strings and of resource keys, as the standard library and the derived
    `Ord` of `ResourceKey` give it. */
module TextOrder {
  import opened JsonValue

  /** Lexicographic by code point. */
  predicate Less(a: string, b: string) {
    b != [] && (a == [] || a[0] < b[0] || (a[0] == b[0] && Less(a[1..], b[1..])))
  }

  lemma {:induction false} LessAsymmetric(a: string, b: string)
    requires Less(a, b)
    ensures a != b && !Less(b, a)
  {
    if a != [] && a[0] == b[0] {
      LessAsymmetric(a[1..], b[1..]);
    }
  }

  lemma {:induction false} LessTransitive(a: string, b: string, c: string)
    requires Less(a, b) && Less(b, c)
    ensures Less(a, c)
  {
    if a != [] && a[0] == b[0] == c[0] {
      LessTransitive(a[1..], b[1..], c[1..]);
    }
  }

  lemma {:induction false} LessTotal(a: string, b: string)
    requires a != b
    ensures Less(a, b) || Less(b, a)
  {
    if a != [] && b != [] && a[0] == b[0] {
      assert a == [a[0]] + a[1..] && b == [b[0]] + b[1..];
      LessTotal(a[1..], b[1..]);
    }
  }

  /** A resource key within one kind: its namespace, none for a cluster-scoped kind, then
      its name. */
  datatype Key = Key(namespace: Option<string>, name: string)

  predicate NamespaceLess(a: Option<string>, b: Option<string>) {
    b.Some? && (a.None? || Less(a.value, b.value))
  }

  predicate KeyLess(a: Key, b: Key) {
    NamespaceLess(a.namespace, b.namespace) || (a.namespace == b.namespace && Less(a.name, b.name))
  }

  lemma KeyLessAsymmetric(a: Key, b: Key)
    requires KeyLess(a, b)
    ensures a != b && !KeyLess(b, a)
  {
    if NamespaceLess(a.namespace, b.namespace) {
      if a.namespace.Some? {
        LessAsymmetric(a.namespace.value, b.namespace.value);
      }
    } else {
      LessAsymmetric(a.name, b.name);
    }
  }

  lemma KeyLessTransitive(a: Key, b: Key, c: Key)
    requires KeyLess(a, b) && KeyLess(b, c)
    ensures KeyLess(a, c)
  {
    if NamespaceLess(a.namespace, b.namespace) && NamespaceLess(b.namespace, c.namespace) && a.namespace.Some? {
      LessTransitive(a.namespace.value, b.namespace.value, c.namespace.value);
    } else if a.namespace == b.namespace == c.namespace {
      LessTransitive(a.name, b.name, c.name);
    }
  }
}
