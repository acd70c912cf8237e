/**
 * `getFactoidByKey`: look a key up among the factoids and, failing that,
 * follow the alias table and start over (the `goto restart` loop).
 */
module Resolver {
  import opened Options

  /** The store invariant: every alias names a key of `factoids`. */
  ghost predicate AliasesResolve(factoids: map<string, string>, aliases: map<string, string>) {
    forall k :: k in aliases ==> aliases[k] in factoids
  }

  /**
   * What a call of `getFactoidByKey` does: it returns Go's triple
   * `(factoid, key, ok)`, or it never returns because the aliases form a cycle
   * that avoids every factoid key.
   */
  datatype Outcome = Returns(factoid: string, key: string, ok: bool) | Diverges

  /**
   * The restart loop, with the alias keys already hopped through in `visited`:
   * reaching one of them again means the loop goes round forever.
   */
  function Chase(factoids: map<string, string>, aliases: map<string, string>, key: string, visited: set<string>): (r: Outcome)
    decreases aliases.Keys - visited
    ensures r.Returns? && r.ok ==> r.key in factoids && r.factoid == factoids[r.key]
    ensures r.Returns? && !r.ok ==> r.factoid == "" && r.key == ""
    ensures key in factoids ==> r == Returns(factoids[key], key, true)
  {
    if key in factoids then Returns(factoids[key], key, true)
    else if key !in aliases then Returns("", "", false)
    else if key in visited then Diverges
    else Chase(factoids, aliases, aliases[key], visited + {key})
  }

  /**
   * `getFactoidByKey(key)`. Whenever it returns a hit, the key it returns is a
   * factoid key and the text is that factoid's body; a miss returns Go's zero
   * values for the text and the key.
   */
  function GetFactoidByKey(factoids: map<string, string>, aliases: map<string, string>, key: string): (r: Outcome)
    ensures r.Returns? && r.ok ==> r.key in factoids && r.factoid == factoids[r.key]
    ensures r.Returns? && !r.ok ==> r.factoid == "" && r.key == ""
  {
    Chase(factoids, aliases, key, {})
  }

  /**
   * Reference definition of resolution under the store invariant: the key
   * itself if it is a factoid, otherwise the one factoid its alias names.
   */
  function Canonical(factoids: map<string, string>, aliases: map<string, string>, key: string): (c: Option<string>)
    ensures c.Some? ==> c.value in factoids
    ensures c.Some? && c.value != key ==> key in aliases && aliases[key] == c.value
  {
    if key in factoids then Some(key)
    else if key in aliases && aliases[key] in factoids then Some(aliases[key])
    else None
  }

  /** A factoid key resolves to itself, whatever the aliases say. */
  lemma ResolveFactoid(factoids: map<string, string>, aliases: map<string, string>, key: string)
    requires key in factoids
    ensures GetFactoidByKey(factoids, aliases, key) == Returns(factoids[key], key, true)
  {
  }

  /** A key that is neither a factoid nor an alias resolves to a miss. */
  lemma ResolveMissing(factoids: map<string, string>, aliases: map<string, string>, key: string)
    requires key !in factoids && key !in aliases
    ensures GetFactoidByKey(factoids, aliases, key) == Returns("", "", false)
  {
  }

  /** An alias whose target is a factoid resolves, after one hop, to that factoid. */
  lemma ResolveAlias(factoids: map<string, string>, aliases: map<string, string>, key: string)
    requires key !in factoids && key in aliases && aliases[key] in factoids
    ensures GetFactoidByKey(factoids, aliases, key) == Returns(factoids[aliases[key]], aliases[key], true)
  {
  }

  /**
   * Under the store invariant the loop always returns, after at most one
   * alias hop, and agrees with the one-hop reference definition.
   */
  lemma ResolveOneHop(factoids: map<string, string>, aliases: map<string, string>, key: string)
    requires AliasesResolve(factoids, aliases)
    ensures GetFactoidByKey(factoids, aliases, key) ==
      match Canonical(factoids, aliases, key)
      case Some(c) => Returns(factoids[c], c, true)
      case None => Returns("", "", false)
  {
  }

  /** Under the store invariant, a hit lands on exactly the key `Canonical` names. */
  lemma ResolveIsCanonical(factoids: map<string, string>, aliases: map<string, string>, key: string)
    requires AliasesResolve(factoids, aliases)
    ensures GetFactoidByKey(factoids, aliases, key).Returns?
    ensures GetFactoidByKey(factoids, aliases, key).ok <==> Canonical(factoids, aliases, key).Some?
    ensures GetFactoidByKey(factoids, aliases, key).ok ==>
      GetFactoidByKey(factoids, aliases, key).key == Canonical(factoids, aliases, key).value
  {
  }

  /** An alias chain longer than one hop, which the invariant rules out, still resolves. */
  lemma ResolveChain(factoids: map<string, string>, aliases: map<string, string>, x: string, y: string, z: string)
    requires x !in factoids && y !in factoids && x != y
    requires x in aliases && aliases[x] == y && y in aliases && aliases[y] == z && z in factoids
    ensures GetFactoidByKey(factoids, aliases, x) == Returns(factoids[z], z, true)
  {
    assert Chase(factoids, aliases, y, {x}) == Chase(factoids, aliases, z, {x, y});
    assert Chase(factoids, aliases, x, {}) == Chase(factoids, aliases, y, {x});
  }

  /** Without the invariant the loop is unbounded: two aliases naming each other never return. */
  lemma CycleDiverges()
    ensures GetFactoidByKey(map[], map["a" := "b", "b" := "a"], "a") == Diverges
  {
    var f: map<string, string>, a := map[], map["a" := "b", "b" := "a"];
    assert "a" in {"a", "b"};
    assert Chase(f, a, "a", {"a", "b"}) == Diverges;
    assert Chase(f, a, "b", {"a"}) == Chase(f, a, "a", {"a", "b"});
    assert Chase(f, a, "a", {}) == Chase(f, a, "b", {"a"});
  }
}
