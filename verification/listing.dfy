/**
 * The listing behind the rendered factoid page: one `Factoid` record per
 * factoid key, sorted by name, each carrying the sorted names of the aliases
 * that point at it.
 */
module Listing {
  import opened Order

  /** Go's `Factoid` struct. */
  datatype Record = Record(name: string, text: string, aliases: seq<string>)

  function NameOf(r: Record): (name: string) { r.name }

  /** `l` lists, in sorted order, exactly the alias keys whose value is `name`. */
  ghost predicate AliasListOf(l: seq<string>, name: string, aliases: map<string, string>) {
    && StrictlySorted(l, Id)
    && forall k :: k in l <==> k in aliases && aliases[k] == name
  }

  /**
   * `d` is the listing of the two maps: records strictly sorted by name, one
   * for each factoid key and no other, each with its body and alias list.
   */
  ghost predicate ListingOf(d: seq<Record>, factoids: map<string, string>, aliases: map<string, string>) {
    && StrictlySorted(d, NameOf)
    && (forall n :: n in factoids ==> exists r :: r in d && r.name == n)
    && (forall r :: r in d ==>
          && r.name in factoids
          && r.text == factoids[r.name]
          && AliasListOf(r.aliases, r.name, aliases))
  }

  /** The listing is a function of the two maps: at most one sequence fits. */
  lemma ListingUnique(d: seq<Record>, e: seq<Record>, factoids: map<string, string>, aliases: map<string, string>)
    requires ListingOf(d, factoids, aliases) && ListingOf(e, factoids, aliases)
    ensures d == e
  {
    forall r | r in d
      ensures r in e
    {
      var q :| q in e && q.name == r.name;
      SortedUnique(r.aliases, q.aliases, Id);
    }
    forall r | r in e
      ensures r in d
    {
      var q :| q in d && q.name == r.name;
      SortedUnique(r.aliases, q.aliases, Id);
    }
    SortedUnique(d, e, NameOf);
  }

  /**
   * The store `{foo: bar, baz: qux}` with alias `b -> foo` is listed as
   * `baz` first, then `foo` with alias list `["b"]`, and by nothing else.
   */
  lemma ListingExample(d: seq<Record>)
    requires ListingOf(d, map["foo" := "bar", "baz" := "qux"], map["b" := "foo"])
    ensures d == [Record("baz", "qux", []), Record("foo", "bar", ["b"])]
  {
    var f, a := map["foo" := "bar", "baz" := "qux"], map["b" := "foo"];
    var expected := [Record("baz", "qux", []), Record("foo", "bar", ["b"])];
    assert Less("baz", "foo");
    assert AliasListOf([], "baz", a);
    assert AliasListOf(["b"], "foo", a);
    assert forall n :: n in f ==> n == "foo" || n == "baz";
    assert expected[0] in expected && expected[1] in expected;
    assert ListingOf(expected, f, a);
    ListingUnique(d, expected, f, a);
  }
}
