/**
 * The factoid store (`state.Factoids`, `state.Factoidaliases`) and the admin
 * commands of `tryHandleAdminFactoid`, which change it in place and clear the
 * render cache after every change.
 */
module Admin {
  import opened Text
  import opened Resolver
  import opened Listing
  import opened RenderCache

  /** The notices sent back to the invoking nick, in order. */
  datatype Message =
    | AddedModified                 // "Added/Modified successfully"
    | Deleted                       // "Deleted successfully"
    | FoundAlias                    // "Found an alias, deleting the original factoid"
    | WouldOverwrite                // "Renaming would overwrite, please delete first"
    | WouldOverwriteAlias           // "Renaming would overwrite an alias, please delete first"
    | Renamed                       // "Renamed successfully"
    | NotPresent                    // "Not present"
    | AliasAdded(canonical: string) // "Added/Modified alias for <canonical> successfully"
    | NoFactoidNamed(name: string)  // "No factoid with name <name> found"
    | AliasDeleted                  // "Deleted alias successfully"

  /** The alias table with every alias that names `t` removed. */
  function WithoutTarget(aliases: map<string, string>, t: string): (r: map<string, string>)
    ensures forall k :: k in r <==> k in aliases && aliases[k] != t
    ensures forall k :: k in r ==> r[k] == aliases[k]
  {
    map k | k in aliases && aliases[k] != t :: aliases[k]
  }

  /** The alias table with every alias that names `from` pointed at `to` instead. */
  function Repointed(aliases: map<string, string>, from: string, to: string): (r: map<string, string>)
    ensures r.Keys == aliases.Keys
    ensures forall k :: k in aliases && aliases[k] == from ==> r[k] == to
    ensures forall k :: k in aliases && aliases[k] != from ==> r[k] == aliases[k]
  {
    map k | k in aliases :: if aliases[k] == from then to else aliases[k]
  }

  /** The commands `tryHandleAdminFactoid` recognises. */
  predicate IsAdminCommand(command: string) {
    command in {"add", "mod", "del", "rename", "addalias", "modalias", "delalias"}
  }

  /** `factoidkey`: the first argument, lower-cased. */
  function CommandKey(parts: seq<string>): (key: string)
    requires |parts| >= 2
    ensures |key| == |parts[1]|
    ensures IsAlpha(parts[1]) ==> IsAlpha(key)
  {
    ToLower(parts[1])
  }

  /** `newfactoidkey`: the second argument lower-cased, or "" when there is none. */
  function NewKey(parts: seq<string>): (key: string)
    ensures |parts| < 3 ==> !IsAlpha(key)
    ensures |parts| >= 3 ==> |key| == |parts[2]|
  {
    if |parts| >= 3 then ToLower(parts[2]) else ""
  }

  /**
   * `factoid`: the second argument, joined with the third only when exactly
   * four parts were given; with five or more only the second argument is kept.
   */
  function Body(parts: seq<string>): (body: string)
    ensures |parts| >= 3 ==> parts[2] <= body
    ensures |parts| >= 5 ==> body == parts[2]
  {
    if |parts| == 4 then parts[2] + " " + parts[3]
    else if |parts| >= 3 then parts[2]
    else ""
  }

  /**
   * The effect of `add` / `mod` on key `key`: the body is upserted, the
   * aliases are untouched, and state is saved.
   */
  ghost predicate AddEffect(f0: map<string, string>, a0: map<string, string>, key: string, body: string,
                            f: map<string, string>, a: map<string, string>, savestate: bool, notices: seq<Message>) {
    f == f0[key := body] && a == a0 && savestate && notices == [AddedModified]
  }

  /**
   * The effect of `del` on key `key`: a factoid key goes, with exactly the
   * aliases naming it; an alias key takes the factoid it names with it; an
   * unknown key changes nothing. State is saved in every case.
   */
  ghost predicate DelEffect(f0: map<string, string>, a0: map<string, string>, key: string,
                            f: map<string, string>, a: map<string, string>, savestate: bool, notices: seq<Message>) {
    && savestate
    && if key in f0 then
         f == f0 - {key} && a == WithoutTarget(a0, key) && notices == [Deleted]
       else if key in a0 then
         f == f0 - {a0[key]} && a == WithoutTarget(a0, a0[key]) && notices == [FoundAlias, Deleted]
       else
         f == f0 && a == a0 && notices == []
  }

  /**
   * The effect of `rename` from `key` to `newKey`: refused, with the notice
   * naming the reason, unless the new key is well formed and free and the old
   * key exists; otherwise the body moves and the aliases are repointed.
   */
  ghost predicate RenameEffect(f0: map<string, string>, a0: map<string, string>, key: string, newKey: string,
                               f: map<string, string>, a: map<string, string>, savestate: bool, notices: seq<Message>) {
    && (savestate <==> IsAlpha(newKey) && newKey !in f0 && newKey !in a0 && key in f0)
    && (savestate ==> f == (f0 - {key})[newKey := f0[key]] && a == Repointed(a0, key, newKey))
    && (!savestate ==> f == f0 && a == a0)
    && notices ==
         if !IsAlpha(newKey) then []
         else if newKey in f0 then [WouldOverwrite]
         else if newKey in a0 then [WouldOverwriteAlias]
         else if key in f0 then [Renamed]
         else [NotPresent]
  }

  /**
   * The effect of `addalias` / `modalias`: the alias names the canonical key
   * the target resolves to; an unresolvable target changes nothing and gets a
   * notice naming "".
   */
  ghost predicate AddAliasEffect(f0: map<string, string>, a0: map<string, string>, alias: string, target: string,
                                 f: map<string, string>, a: map<string, string>, savestate: bool, notices: seq<Message>) {
    && f == f0
    && match Canonical(f0, a0, target)
       case Some(c) => savestate && a == a0[alias := c] && notices == [AliasAdded(c)]
       case None => !savestate && a == a0 && notices == [NoFactoidNamed("")]
  }

  /** The effect of `delalias`: the alias goes if it is there, and only then is state saved. */
  ghost predicate DelAliasEffect(f0: map<string, string>, a0: map<string, string>, alias: string,
                                 f: map<string, string>, a: map<string, string>, savestate: bool, notices: seq<Message>) {
    && f == f0 && a == a0 - {alias}
    && (savestate <==> alias in a0)
    && notices == if alias in a0 then [AliasDeleted] else []
  }

  /**
   * Deleting a factoid keeps the store invariant, and each alias that named
   * it (and is not itself a factoid key) no longer resolves.
   */
  lemma DeleteCascade(factoids: map<string, string>, aliases: map<string, string>, key: string)
    requires AliasesResolve(factoids, aliases)
    ensures AliasesResolve(factoids - {key}, WithoutTarget(aliases, key))
    ensures forall j :: j in aliases && aliases[j] == key && j != key && j !in factoids ==>
      GetFactoidByKey(factoids - {key}, WithoutTarget(aliases, key), j) == Returns("", "", false)
    ensures key !in aliases ==>
      GetFactoidByKey(factoids - {key}, WithoutTarget(aliases, key), key) == Returns("", "", false)
  {
  }

  /**
   * Renaming `from` to a fresh key `to` keeps the store invariant; `to`
   * resolves to the old body, `from` no longer resolves unless it is also an
   * alias, and each alias that named `from` (and is not itself a factoid key)
   * now resolves to `to`.
   */
  lemma RenameResolves(factoids: map<string, string>, aliases: map<string, string>, from: string, to: string)
    requires AliasesResolve(factoids, aliases)
    requires from in factoids && to !in factoids && to !in aliases
    ensures AliasesResolve((factoids - {from})[to := factoids[from]], Repointed(aliases, from, to))
    ensures GetFactoidByKey((factoids - {from})[to := factoids[from]], Repointed(aliases, from, to), to)
      == Returns(factoids[from], to, true)
    ensures from !in aliases ==>
      GetFactoidByKey((factoids - {from})[to := factoids[from]], Repointed(aliases, from, to), from)
        == Returns("", "", false)
    ensures forall j :: j in aliases && aliases[j] == from && j != to && j != from && j !in factoids ==>
      GetFactoidByKey((factoids - {from})[to := factoids[from]], Repointed(aliases, from, to), j)
        == Returns(factoids[from], to, true)
  {
  }

  class Store {
    var factoids: map<string, string>
    var aliases: map<string, string>

    /** The store invariant: every alias names a factoid key. */
    ghost predicate Valid()
      reads this
    {
      AliasesResolve(factoids, aliases)
    }

    constructor ()
      ensures Valid() && factoids == map[] && aliases == map[]
    {
      factoids := map[];
      aliases := map[];
    }

    /** `add` / `mod`: upsert the body under the key; nothing checks the key's form. */
    method Add(key: string, body: string) returns (savestate: bool, notices: seq<Message>)
      modifies this
      ensures AddEffect(old(factoids), old(aliases), key, body, factoids, aliases, savestate, notices)
      ensures old(Valid()) ==> Valid()
    {
      factoids := factoids[key := body];
      savestate := true;
      notices := [AddedModified];
    }

    /**
     * `del`: a factoid key is removed together with exactly the aliases that
     * name it; an alias key instead removes the factoid it names (one hop,
     * since the store invariant holds); state is saved even when nothing
     * matched.
     */
    method Del(key: string) returns (savestate: bool, notices: seq<Message>)
      requires Valid()
      modifies this
      ensures Valid()
      ensures DelEffect(old(factoids), old(aliases), key, factoids, aliases, savestate, notices)
    {
      notices := [];
      var k := key;
      // restartdelete: the alias hop is taken at most once, because an alias
      // always names a factoid key
      while k !in factoids && k in aliases
        invariant factoids == old(factoids) && aliases == old(aliases)
        invariant (k == key && notices == []) || (key !in factoids && key in aliases && k == aliases[key] && notices == [FoundAlias])
        decreases if k in factoids then 0 else 1
      {
        notices := notices + [FoundAlias];
        k := aliases[k];
      }
      if k in factoids {
        factoids := factoids - {k};
        notices := notices + [Deleted];
        ghost var a0 := aliases;
        var todo := aliases.Keys;
        while todo != {}
          invariant todo <= a0.Keys
          invariant factoids == old(factoids) - {k}
          invariant forall j :: j in aliases <==> j in a0 && (j in todo || a0[j] != k)
          invariant forall j :: j in aliases ==> aliases[j] == a0[j]
          decreases todo
        {
          var j :| j in todo;
          if aliases[j] == k {
            aliases := aliases - {j};
          }
          todo := todo - {j};
        }
        assert aliases.Keys == WithoutTarget(a0, k).Keys;
        DeleteCascade(old(factoids), a0, k);
      }
      savestate := true;
    }

    /**
     * `rename`: refused when the new key is malformed, already a factoid key
     * or already an alias key, and a no-op when the old key is absent;
     * otherwise the body moves to the new key and every alias that named the
     * old key names the new one.
     */
    method Rename(key: string, newKey: string) returns (savestate: bool, notices: seq<Message>)
      modifies this
      ensures old(Valid()) ==> Valid()
      ensures RenameEffect(old(factoids), old(aliases), key, newKey, factoids, aliases, savestate, notices)
    {
      savestate := false;
      if !IsAlpha(newKey) {
        return false, [];
      }
      if newKey in factoids {
        return false, [WouldOverwrite];
      }
      if newKey in aliases {
        return false, [WouldOverwriteAlias];
      }
      if key in factoids {
        factoids := factoids[newKey := factoids[key]];
        factoids := factoids - {key};
        ghost var a0 := aliases;
        var todo := aliases.Keys;
        while todo != {}
          invariant todo <= a0.Keys
          invariant aliases.Keys == a0.Keys
          invariant factoids == (old(factoids) - {key})[newKey := old(factoids)[key]]
          invariant forall j :: j in a0 && j !in todo && a0[j] == key ==> aliases[j] == newKey
          invariant forall j :: j in a0 && (j in todo || a0[j] != key) ==> aliases[j] == a0[j]
          decreases todo
        {
          var j :| j in todo;
          if aliases[j] == key {
            aliases := aliases[j := newKey];
          }
          todo := todo - {j};
        }
        assert aliases == Repointed(a0, key, newKey);
        savestate := true;
        notices := [Renamed];
        if old(Valid()) {
          RenameResolves(old(factoids), a0, key, newKey);
        }
      } else {
        notices := [NotPresent];
      }
    }

    /**
     * `addalias` / `modalias`: the alias is pointed at the canonical key the
     * target resolves to, never at an intermediate alias. When the target does
     * not resolve nothing changes, and the notice names the key the lookup
     * returned, which is always "".
     */
    method AddAlias(alias: string, target: string) returns (savestate: bool, notices: seq<Message>)
      requires Valid()
      modifies this
      ensures Valid()
      ensures AddAliasEffect(old(factoids), old(aliases), alias, target, factoids, aliases, savestate, notices)
    {
      ResolveIsCanonical(factoids, aliases, target);
      var r := GetFactoidByKey(factoids, aliases, target);
      if r.ok {
        aliases := aliases[alias := r.key];
        savestate := true;
        notices := [AliasAdded(r.key)];
      } else {
        savestate := false;
        notices := [NoFactoidNamed(r.key)];
      }
    }

    /** `delalias`: remove the alias if there is one; silent otherwise. */
    method DelAlias(alias: string) returns (savestate: bool, notices: seq<Message>)
      modifies this
      ensures DelAliasEffect(old(factoids), old(aliases), alias, factoids, aliases, savestate, notices)
      ensures old(Valid()) ==> Valid()
    {
      if alias in aliases {
        notices := [AliasDeleted];
        aliases := aliases - {alias};
        savestate := true;
      } else {
        savestate, notices := false, [];
      }
    }

    /**
     * `tryHandleAdminFactoid`: dispatch on the command word. `abort` tells the
     * caller the command was recognised; every change to the store sets
     * `savestate`, and `savestate` clears the render cache, so a valid cache
     * keeps listing exactly what the store holds.
     */
    method TryHandleAdminFactoid(parts: seq<string>, cache: FactoidTpl) returns (abort: bool, savestate: bool, notices: seq<Message>)
      requires |parts| >= 2
      requires Valid() && cache.Valid()
      modifies this, cache`valid
      ensures Valid() && cache.Valid()
      ensures abort <==> IsAdminCommand(parts[0])
      ensures factoids != old(factoids) || aliases != old(aliases) ==> savestate
      ensures savestate ==> !cache.valid
      ensures !savestate ==> cache.valid == old(cache.valid)
      ensures old(Coherent(this, cache)) ==> Coherent(this, cache)
      ensures parts[0] in {"add", "mod"} && |parts| >= 3 ==>
        AddEffect(old(factoids), old(aliases), CommandKey(parts), Body(parts), factoids, aliases, savestate, notices)
      ensures parts[0] == "del" ==>
        DelEffect(old(factoids), old(aliases), CommandKey(parts), factoids, aliases, savestate, notices)
      ensures parts[0] == "rename" ==>
        RenameEffect(old(factoids), old(aliases), CommandKey(parts), NewKey(parts), factoids, aliases, savestate, notices)
      ensures parts[0] in {"addalias", "modalias"} && |parts| >= 3 ==>
        AddAliasEffect(old(factoids), old(aliases), CommandKey(parts), NewKey(parts), factoids, aliases, savestate, notices)
      ensures parts[0] == "delalias" ==>
        DelAliasEffect(old(factoids), old(aliases), CommandKey(parts), factoids, aliases, savestate, notices)
      ensures !IsAdminCommand(parts[0]) || (parts[0] in {"add", "mod", "addalias", "modalias"} && |parts| < 3) ==>
        factoids == old(factoids) && aliases == old(aliases) && !savestate && notices == []
    {
      var command := parts[0];
      var key := CommandKey(parts);
      var newKey := NewKey(parts);
      var body := Body(parts);
      abort := true;
      savestate := false;
      notices := [];
      if command == "add" || command == "mod" {
        if |parts| < 3 {
          return;
        }
        savestate, notices := Add(key, body);
      } else if command == "del" {
        savestate, notices := Del(key);
      } else if command == "rename" {
        savestate, notices := Rename(key, newKey);
      } else if command == "addalias" || command == "modalias" {
        if |parts| < 3 {
          return;
        }
        savestate, notices := AddAlias(key, newKey);
      } else if command == "delalias" {
        savestate, notices := DelAlias(key);
      } else {
        abort := false;
        return;
      }
      if savestate {
        cache.Invalidate();
      }
    }
  }

  /** A valid cache lists exactly what the store holds. */
  ghost predicate Coherent(store: Store, cache: FactoidTpl)
    reads store, cache
  {
    cache.valid ==> ListingOf(cache.data, store.factoids, store.aliases)
  }
}
