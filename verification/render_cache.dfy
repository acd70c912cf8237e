/**
 * `Factoidtpl`: the rendered factoid page, cached in a byte buffer that is
 * reused in place, with a validity flag that mutations and the template-file
 * check clear and the next page request sets again.
 */
module RenderCache {
  import opened Options
  import opened Order
  import opened Listing

  newtype byte = b: int | 0 <= b < 256

  /** Go's zero `time.Time`; `tplmtime` is never assigned, so it always holds this. */
  const ZeroTime: int := 0

  /** A parsed template: executing it on a listing yields the page's bytes. */
  type Template = seq<Record> -> seq<byte>

  class FactoidTpl {
    var tpl: Template
    var tplmtime: int
    var tpllen: nat
    var tplout: array<byte>
    var valid: bool
    var data: seq<Record>

    /** The buffer holds `tpllen` meaningful bytes, which, while valid, are the rendered listing. */
    ghost predicate Valid()
      reads this, tplout
    {
      && tpllen <= tplout.Length
      && tplmtime == ZeroTime
      && (valid ==> tplout[..tpllen] == tpl(data))
    }

    /** The zero value of the struct after `init`: an empty template and no output yet. */
    constructor ()
      ensures Valid() && !valid
      ensures tpllen == 0 && tplout.Length == 0 && data == []
    {
      tpl := (d: seq<Record>) => [];
      tplmtime := ZeroTime;
      tpllen := 0;
      tplout := new byte[0];
      valid := false;
      data := [];
    }

    /** `invalidate`: the next request renders again. */
    method Invalidate()
      requires Valid()
      modifies this`valid
      ensures Valid() && !valid
    {
      valid := false;
    }

    /** `execute`: the bytes written to the client, which while valid are the rendered listing. */
    method Execute() returns (out: seq<byte>)
      requires Valid()
      ensures out == tplout[..tpllen]
      ensures valid ==> out == tpl(data)
    {
      out := tplout[0..tpllen];
    }

    /** `ensureData`: rebuild the listing from a read snapshot of the two maps. */
    method EnsureData(factoids: map<string, string>, aliases: map<string, string>)
      requires Valid() && !valid
      modifies this`data
      ensures Valid() && !valid
      ensures ListingOf(data, factoids, aliases)
    {
      var groups := GroupAliases(aliases);
      data := BuildRecords(factoids, aliases, groups);
    }

    /**
     * `ensureFreshness`: nothing happens while valid. Otherwise the template
     * is parsed again (`parsed` is its result), the listing rebuilt and
     * rendered, the buffer replaced only if it is too small, the rendered bytes
     * copied to its front, and the cache marked valid.
     */
    method EnsureFreshness(factoids: map<string, string>, aliases: map<string, string>, parsed: Template)
      requires Valid()
      modifies this, tplout
      ensures Valid() && valid
      ensures old(valid) ==>
        && tpl == old(tpl) && data == old(data) && tpllen == old(tpllen)
        && tplout == old(tplout) && tplout[..] == old(tplout[..])
      ensures !old(valid) ==>
        && tpl == parsed
        && ListingOf(data, factoids, aliases)
        && tpllen == |parsed(data)|
        && tplout[..tpllen] == parsed(data)
      ensures !old(valid) && tpllen <= old(tplout.Length) ==>
        tplout == old(tplout) && tplout[tpllen..] == old(tplout[..])[tpllen..]
      ensures !old(valid) && old(tplout.Length) < tpllen ==>
        fresh(tplout) && tplout.Length == tpllen
    {
      if valid {
        return;
      }
      tpl := parsed;
      EnsureData(factoids, aliases);
      var rendered := tpl(data);
      tpllen := |rendered|;
      if tplout.Length < tpllen {
        tplout := new byte[tpllen];
      }
      ghost var before := tplout[..];
      var i := 0;
      while i < tpllen
        invariant 0 <= i <= tpllen <= tplout.Length
        invariant forall j :: 0 <= j < i ==> tplout[j] == rendered[j]
        invariant forall j :: tpllen <= j < tplout.Length ==> tplout[j] == before[j]
        modifies tplout
      {
        tplout[i] := rendered[i];
        i := i + 1;
      }
      assert tplout[..tpllen] == rendered;
      assert tplout[tpllen..] == before[tpllen..];
      valid := true;
    }

    /**
     * `checkTemplateChanged`, run by the ticker with the result of `os.Stat`
     * (`None` when it fails). It can only clear the flag: it does so when the
     * file's modification time differs from `tplmtime`, which is never
     * assigned, so any valid cache is cleared whenever the file's time is not
     * Go's zero time.
     */
    method CheckTemplateChanged(stat: Option<int>)
      requires Valid()
      modifies this`valid
      ensures Valid()
      ensures valid ==> old(valid)
      ensures !old(valid) || stat.None? ==> valid == old(valid)
      ensures old(valid) && stat.Some? ==> (valid <==> stat.value == ZeroTime)
    {
      if !valid {
        return;
      }
      if stat.None? {
        return;
      }
      if stat.value != tplmtime {
        valid := false;
      }
    }
  }

  /** Every group lists the alias keys naming its factoid, and every alias target has a group. */
  ghost predicate Grouped(groups: map<string, seq<string>>, aliases: map<string, string>) {
    && (forall n :: n in groups ==> AliasListOf(groups[n], n, aliases))
    && (forall k :: k in aliases ==> aliases[k] in groups)
  }

  /**
   * The first loop of `ensureData`: group the alias keys by the factoid they
   * name, each group sorted. Inserting every key at its place yields what Go's
   * append-then-`sort.Strings` yields.
   */
  method GroupAliases(aliases: map<string, string>) returns (groups: map<string, seq<string>>)
    ensures Grouped(groups, aliases)
  {
    groups := map[];
    var todo := aliases.Keys;
    while todo != {}
      invariant todo <= aliases.Keys
      invariant forall n :: n in groups ==> StrictlySorted(groups[n], Id)
      invariant forall n, k :: n in groups ==>
        (k in groups[n] <==> k in aliases && k !in todo && aliases[k] == n)
      invariant forall k :: k in aliases && k !in todo ==> aliases[k] in groups
      decreases todo
    {
      var k :| k in todo;
      var n := aliases[k];
      var g := if n in groups then groups[n] else [];
      forall i | 0 <= i < |g|
        ensures Id(g[i]) != Id(k)
      {
        assert g[i] in g;
      }
      groups := groups[n := Insert(g, k, Id)];
      todo := todo - {k};
    }
  }

  /**
   * The second loop of `ensureData` and its `sort.Sort`: one record per
   * factoid, carrying its group (none when no alias names it), in name order.
   */
  method BuildRecords(factoids: map<string, string>, aliases: map<string, string>, groups: map<string, seq<string>>)
    returns (recs: seq<Record>)
    requires Grouped(groups, aliases)
    ensures ListingOf(recs, factoids, aliases)
  {
    recs := [];
    var names := factoids.Keys;
    while names != {}
      invariant names <= factoids.Keys
      invariant StrictlySorted(recs, NameOf)
      invariant forall r :: r in recs ==>
        && r.name in factoids && r.name !in names
        && r.text == factoids[r.name]
        && AliasListOf(r.aliases, r.name, aliases)
      invariant forall n :: n in factoids && n !in names ==> exists r :: r in recs && r.name == n
      decreases names
    {
      var n :| n in names;
      var als: seq<string> := if n in groups then groups[n] else [];
      assert AliasListOf(als, n, aliases);
      var r := Record(n, factoids[n], als);
      forall i | 0 <= i < |recs|
        ensures NameOf(recs[i]) != NameOf(r)
      {
        assert recs[i] in recs;
      }
      recs := Insert(recs, r, NameOf);
      names := names - {n};
    }
  }
}
