/**
  The rendered cache key `plugin_kv_storage:<slug>:group:<group>:key:<key>`. One cache is
  shared by every plugin, so two addresses that render alike share an entry.
*/
module CacheKey {
  import opened KVTable

  datatype Namespace = Namespace(slug: string, group: string)

  const PREFIX := "plugin_kv_storage:"
  const GROUP := ":group:"
  const KEY := ":key:"

  function NamespaceOf(k: RowKey): Namespace {
    Namespace(k.slug, k.group)
  }

  /** Everything of the rendering before the key. */
  function Header(n: Namespace): string {
    PREFIX + n.slug + GROUP + n.group + KEY
  }

  function Render(k: RowKey): string {
    Header(NamespaceOf(k)) + k.key
  }

  /** No namespace's header starts another namespace's header. */
  ghost predicate PrefixFree(ns: iset<Namespace>) {
    forall a, b :: a in ns && b in ns && Header(a) <= Header(b) ==> a == b
  }

  /** Two namespaces have keys that share a cache entry exactly when one header starts the other. */
  lemma CollisionIff(a: Namespace, b: Namespace)
    ensures (exists x, y :: Render(RowKey(a.slug, a.group, x)) == Render(RowKey(b.slug, b.group, y)))
            <==> Header(a) <= Header(b) || Header(b) <= Header(a)
  {
    if x, y :| Render(RowKey(a.slug, a.group, x)) == Render(RowKey(b.slug, b.group, y)) {
      var r := Header(a) + x;
      assert r == Header(b) + y;
      assert Header(a) == r[..|Header(a)|] && Header(b) == r[..|Header(b)|];
    }
    if Header(a) <= Header(b) {
      assert Header(b) == Header(a) + Header(b)[|Header(a)|..];
      assert Header(b) + "" == Header(b);
      assert Render(RowKey(a.slug, a.group, Header(b)[|Header(a)|..])) == Render(RowKey(b.slug, b.group, ""));
    }
    if Header(b) <= Header(a) {
      assert Header(a) == Header(b) + Header(a)[|Header(b)|..];
      assert Header(a) + "" == Header(a);
      assert Render(RowKey(a.slug, a.group, "")) == Render(RowKey(b.slug, b.group, Header(a)[|Header(b)|..]));
    }
  }

  /** Inside prefix-free namespaces the rendering determines the address, whatever the key holds. */
  lemma RenderInjective(ns: iset<Namespace>, a: RowKey, b: RowKey)
    requires PrefixFree(ns) && NamespaceOf(a) in ns && NamespaceOf(b) in ns
    requires Render(a) == Render(b)
    ensures a == b
  {
    var ha, hb := Header(NamespaceOf(a)), Header(NamespaceOf(b));
    var r := Render(a);
    assert ha == r[..|ha|] && hb == r[..|hb|];
    assert ha <= hb || hb <= ha;
    assert a.key == r[|ha|..] && b.key == r[|hb|..];
  }

  predicate NoColon(n: Namespace) {
    ':' !in n.slug && ':' !in n.group
  }

  ghost function ColonFree(): iset<Namespace> {
    iset n: Namespace | NoColon(n)
  }

  lemma ColonAfter(x: string, r: string, i: nat)
    requires i <= |x|
    ensures (x + ":" + r)[i] == if i < |x| then x[i] else ':'
    ensures i < |x| ==> x[i] in x
    ensures r == (x + ":" + r)[|x| + 1..]
    ensures x == (x + ":" + r)[..|x|]
  {
  }

  /** The first colon ends the colon-free part, so comparable texts agree up to it. */
  lemma SplitAtColon(x: string, y: string, r: string, q: string)
    requires ':' !in x && ':' !in y
    requires x + ":" + r <= y + ":" + q
    ensures x == y && r <= q
  {
    var n := if |x| <= |y| then |x| else |y|;
    ColonAfter(x, r, n);
    ColonAfter(y, q, n);
    assert (x + ":" + r)[n] == (y + ":" + q)[n];
  }

  lemma NoColonHeaders(a: Namespace, b: Namespace)
    requires NoColon(a) && NoColon(b) && Header(a) <= Header(b)
    ensures a == b
  {
    var ra, rb := "group:" + a.group + KEY, "group:" + b.group + KEY;
    assert Header(a) == PREFIX + (a.slug + ":" + ra);
    assert Header(b) == PREFIX + (b.slug + ":" + rb);
    assert a.slug + ":" + ra == Header(a)[|PREFIX|..] && b.slug + ":" + rb == Header(b)[|PREFIX|..];
    SplitAtColon(a.slug, b.slug, ra, rb);
    NoColonGroups(a.group, b.group);
  }

  lemma NoColonGroups(x: string, y: string)
    requires ':' !in x && ':' !in y
    requires "group:" + x + KEY <= "group:" + y + KEY
    ensures x == y
  {
    assert x + ":" + "key:" == ("group:" + x + KEY)[6..];
    assert y + ":" + "key:" == ("group:" + y + KEY)[6..];
    SplitAtColon(x, y, "key:", "key:");
  }

  /** Slugs and groups without a colon are prefix-free, so their operators never share an entry. */
  lemma NoColonPrefixFree()
    ensures PrefixFree(ColonFree())
  {
    forall a: Namespace, b: Namespace | NoColon(a) && NoColon(b) && Header(a) <= Header(b)
      ensures a == b
    {
      NoColonHeaders(a, b);
    }
  }

  ghost predicate Contains(s: string, part: string) {
    exists before, after :: s == before + part + after
  }

  /** Keeping `:key:` out of groups is not enough: these two addresses share an entry. */
  lemma KeyMarkerInGroupIsNotTheTest(slug: string)
    ensures var a, b := RowKey(slug, "a", "key:x"), RowKey(slug, "a:key", "x");
            a != b && !Contains(a.group, KEY) && !Contains(b.group, KEY) && Render(a) == Render(b)
  {
    var a, b := RowKey(slug, "a", "key:x"), RowKey(slug, "a:key", "x");
    assert Render(a) == PREFIX + slug + GROUP + ("a" + KEY + "key:x");
    assert Render(b) == PREFIX + slug + GROUP + ("a:key" + KEY + "x");
    assert "a" + KEY + "key:x" == "a:key" + KEY + "x";
    forall before: string, after: string
      ensures "a:key" != before + KEY + after && "a" != before + KEY + after
    {
      assert |before + KEY + after| >= 5;
      assert before == "" ==> (before + KEY + after)[0] == ':';
    }
  }
}
