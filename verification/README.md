# Factoid store of a chat bot, modelled in Dafny

A factoid is a short named text that the bot prints when someone types `!name`.
The store is two string maps: `Factoids` (name to body) and `Factoidaliases`
(alias to name). This project models, from `factoids.go`:

- **alias resolution** (`getFactoidByKey`), as the pure function
  `Resolver.GetFactoidByKey`. It chases aliases with the set of keys already
  visited, so it can say that Go's `goto restart` loop never returns on an
  alias cycle (`Diverges`);
- **the admin commands** of `tryHandleAdminFactoid` (add/mod, del, rename,
  addalias/modalias, delalias), as methods of the class `Admin.Store` that
  update its two map fields in place, with loops for the alias clean-up;
- **the cooldown** of `factoidUsedRecently`, as the class `Trigger.Limiter`
  over `usedfactoids`;
- **trigger parsing** in `tryHandleFactoid`, as the pure `Trigger.ParseTrigger`
  plus the method `Trigger.TryHandleFactoid`;
- **the render cache** `Factoidtpl`, as the class `RenderCache.FactoidTpl`
  with fields `tpl`, `tplmtime`, `tpllen`, `tplout` (a byte array reused in
  place), `valid` and `data`. `ensureData` builds the listing, which
  `Listing.ListingOf` characterises.

The central invariant is `Resolver.AliasesResolve`: every alias names a
factoid key. It is `Store.Valid()`. Every command keeps it. Under it, resolution
takes at most one hop (`ResolveOneHop`). Without it the loop can run forever
(`CycleDiverges`). A second invariant ties the store to the cache:
`Admin.Coherent` says a valid cache lists exactly what the store holds.
`TryHandleAdminFactoid` keeps it, because every change to the store sets
`savestate`, and `savestate` clears `valid`.

Modelling choices:
- Time is an `int` count of nanoseconds. Go's zero `time.Time` is `0`.
- `os.Stat` is an `Option<int>` parameter: the modification time, or `None` on error.
- The parsed template is a `Template` function from the listing to bytes. It is
  passed to `EnsureFreshness` as the result of `ParseFiles`.
- Notices and replies are returned values (`Message`, `Privmsg`).
- `isalpha` is not defined in `factoids.go`. It is taken to accept exactly the
  non-empty strings of ASCII letters (`Text.IsAlpha`).
- Go's string `<` compares UTF-8 bytes. For Unicode scalar values this is the
  same order as comparing code points, which `Order.Less` does.

Behaviour of the code a reader may not expect, modelled as written:
- `add` does not check the key's form.
- Deleting or renaming a factoid does not cut off its aliases that are also factoid keys: such a key still resolves to its own factoid. After a rename, the old key still resolves if it is also an alias (`DeleteCascade`, `RenameResolves`).
- A key can be both a factoid and an alias. `add` on an alias key does this, and so does `addalias` on a factoid key.
- `tplmtime` is never assigned. So `checkTemplateChanged` clears a valid cache
  on every tick whenever the file's time is not the zero time
  (`CheckTemplateChanged`; `FactoidTpl.Valid()` keeps `tplmtime == ZeroTime`).
- When the target of `addalias` does not resolve, the notice names `""`,
  not the requested key. The `:=` on line 319 shadows `newfactoidkey`, and a
  failed lookup returns the empty key.
- If two spaces follow the trigger key, the whole rest of the line, leading
  space included, becomes the addressee (`ParseDoubleSpace`).
- With five or more parts, the body of `add` is the third part alone (`Admin.Body`).
- An unresolved trigger returns `true`. A rate-limited one returns `false`.

## Model

| member | source | states |
|---|---|---|
| `Resolver.Chase` | factoids.go:191-198 | the restart loop returns the body of a factoid key when it hits, Go's zero values when it misses, and the input key at once when that is a factoid key |
| `Resolver.GetFactoidByKey` | factoids.go:189-201 | a hit is always a factoid key with its own body; a miss returns `("", "", false)` |
| `Resolver.ResolveFactoid` | factoids.go:192-194 | a factoid key resolves to `(Factoids[k], k, true)` without consulting aliases |
| `Resolver.ResolveMissing` | factoids.go:195-200 | a key in neither map resolves to `ok = false` |
| `Resolver.ResolveAlias` | factoids.go:195-198 | a non-factoid alias whose target is a factoid resolves to that target and its body |
| `Resolver.ResolveOneHop` | factoids.go:189-201 | under the store invariant the loop returns, after at most one hop, exactly what the one-hop reference `Canonical` gives |
| `Resolver.ResolveIsCanonical` | factoids.go:189-201 | under the invariant: it returns; it hits iff `Canonical` finds a key; a hit returns that key |
| `Resolver.ResolveChain` | factoids.go:191-198 | a two-hop chain `x -> y -> z` of distinct non-factoid keys ending at a factoid `z` resolves to `z` and its body |
| `Resolver.CycleDiverges` | factoids.go:191-198 | two aliases naming each other, with no factoid, make the loop run forever |
| `Text.IsAlpha` | factoids.go:213 | an accepted key is non-empty and holds no space |
| `Text.ToLower` | factoids.go:243-246 | the lower-cased key has the same length, and each character is lower-cased |
| `Text.IndexOf` | factoids.go:208-211 | `strings.Index`: the first position of the separator, or -1 exactly when it is absent |
| `Order.Less` | factoids.go:31 | Go's string `<`: lexicographic, and never relates a name to itself |
| `Order.LessIrreflexive` | factoids.go:31 | no name sorts before itself |
| `Order.LessTransitive` | factoids.go:31 | the name order is transitive |
| `Order.LessTotal` | factoids.go:31 | any two different names are ordered |
| `Order.LessAsymmetric` | factoids.go:31 | two names are never ordered both ways |
| `Order.Insert` | factoids.go:129-141 | inserting into a strictly sorted sequence keeps it strictly sorted, with exactly the old elements plus the new one |
| `Order.SortedUnique` | factoids.go:129-141 | two strictly sorted sequences with the same elements are equal, so sorting has one outcome |
| `Listing.ListingUnique` | factoids.go:119-143 | the listing is a function of the two maps: two sequences that both satisfy `ListingOf` are equal |
| `Listing.ListingExample` | factoids.go:119-143 | the store `{foo: bar, baz: qux}` with alias `b -> foo` lists `baz`, then `foo` with aliases `["b"]` |
| `RenderCache.GroupAliases` | factoids.go:123-130 | each group is the sorted list of exactly the aliases naming its factoid, and every alias target has a group |
| `RenderCache.BuildRecords` | factoids.go:132-142 | one record per factoid key, carrying its body and its group, strictly sorted by name |
| `RenderCache.FactoidTpl.EnsureData` | factoids.go:119-143 | on an invalid cache, `data` becomes the listing of the snapshot: one record per factoid, sorted by name, each with the sorted aliases naming it; the cache stays invalid and consistent |
| `RenderCache.FactoidTpl.constructor` | factoids.go:45-49 | the cache starts invalid, with an empty buffer and the zero modification time |
| `RenderCache.FactoidTpl.Invalidate` | factoids.go:80-84 | clears `valid` and nothing else |
| `RenderCache.FactoidTpl.Execute` | factoids.go:86-91 | serves `tplout[0:tpllen]`, which while valid is the template applied to `data` |
| `RenderCache.FactoidTpl.EnsureFreshness` | factoids.go:93-117 | a no-op when valid; otherwise sets `valid`, rebuilds `data` as the listing, makes `tplout[0:tpllen]` the rendered bytes, and replaces `tplout` only when it is too small, leaving the bytes after `tpllen` alone when it is reused |
| `RenderCache.FactoidTpl.CheckTemplateChanged` | factoids.go:145-162 | can only clear `valid`; changes nothing when already invalid or when stat fails; otherwise clears it iff the file time differs from the never-assigned `tplmtime` |
| `Admin.CommandKey` | factoids.go:243 | the key argument is `parts[1]` lower-cased, of the same length, and stays well formed |
| `Admin.NewKey` | factoids.go:245-247 | the second argument lower-cased; without one it is "", which `isalpha` refuses |
| `Admin.Body` | factoids.go:245-252 | the body starts with the second argument; with five or more parts it is that argument alone |
| `Admin.WithoutTarget` | factoids.go:271-275 | the alias table keeps exactly the aliases not naming the deleted key, with their values |
| `Admin.Repointed` | factoids.go:299-303 | same alias keys; aliases that named the old key name the new one, the rest keep their values |
| `Admin.DeleteCascade` | factoids.go:265-281 | deleting a factoid with its aliases keeps the invariant; the removed aliases that are not themselves factoid keys no longer resolve, and neither does the key itself unless it is also an alias |
| `Admin.RenameResolves` | factoids.go:295-305 | after a rename the invariant holds and the new key resolves to the old body; the old key does not resolve unless it is also an alias; its former aliases that are not factoid keys resolve to the new key |
| `Admin.Store.Add` | factoids.go:255-263 | upserts the body under the key, leaves aliases alone, saves state, keeps the invariant |
| `Admin.Store.Del` | factoids.go:265-281 | a factoid key loses itself and exactly the aliases naming it; an alias key deletes the factoid it names; nothing changes for an unknown key; `savestate` is always true |
| `Admin.Store.Rename` | factoids.go:283-308 | nothing changes if the new key fails `isalpha`, is a factoid or is an alias, or the old key is absent; otherwise the body moves and aliases are repointed; the notice tells which case happened |
| `Admin.Store.AddAlias` | factoids.go:310-326 | stores the resolved canonical key, never an intermediate alias; changes nothing when the target does not resolve; keeps the invariant |
| `Admin.Store.DelAlias` | factoids.go:328-333 | removes the alias if present, saving state and sending a notice only then |
| `Admin.Store.TryHandleAdminFactoid` | factoids.go:237-345 | keeps the store invariant and cache coherence; any store change sets `savestate`, and `savestate` clears the cache; `abort` holds iff the command is recognised; each command has its full effect on the maps, `savestate` and the notices (`AddEffect`, `DelEffect`, `RenameEffect`, `AddAliasEffect`, `DelAliasEffect`), applied to the lower-cased first argument and, for rename and addalias, the lower-cased second one; unrecognised or short commands change nothing |
| `Trigger.KeyEnd` | factoids.go:208-211 | the key ends at the first space, or at the end of the line when there is none |
| `Trigger.FirstWord` | factoids.go:222-227 | the addressee is the text up to the next space, unless that space comes first or there is none, in which case it is all of the rest |
| `Trigger.ParseTrigger` | factoids.go:204-227 | the parse of a trigger line; any key it yields passes `isalpha` (the full characterisation is `ParseTriggerSpec` and the lemmas below) |
| `Trigger.ParseTriggerSpec` | factoids.go:203-215 | a line is a trigger iff it starts with `!` and its lower-cased key passes `isalpha`; an addressee is present iff the line holds a space |
| `Trigger.ParseBare` | factoids.go:203-215 | `!key` triggers the lower-cased key with no addressee |
| `Trigger.ParseAfterKey` | factoids.go:222-228 | `!key rest` triggers the key, addressed to the first word of `rest` |
| `Trigger.ParseAddressed` | factoids.go:222-228 | `!key word ...` is addressed to `word` alone |
| `Trigger.ParseDoubleSpace` | factoids.go:223-227 | with two spaces after the key, the whole rest of the line becomes the addressee |
| `Trigger.ReplayVerdicts` | factoids.go:177-185 | each trigger after the first is suppressed iff it comes less than 30 s after the previous attempt, so sustained spam stays suppressed |
| `Trigger.CooldownScenario` | factoids.go:177-185 | first call not recent, a second within 30 s recent, a third 30 s or more after the second not recent |
| `Trigger.Limiter.UsedRecently` | factoids.go:177-185 | always stamps the key with `now`; true iff a previous stamp exists and is less than 30 s old |
| `Trigger.TryHandleFactoid` | factoids.go:203-235 | a non-trigger returns false and stamps nothing; an unresolved key returns true silently; a resolved key is stamped under its canonical name and replied to, with its addressee, unless used recently |

## Left out

- The ticker goroutine, `sync.Mutex` and `statelock`: every operation is atomic here.
- `html/template`: parsing, execution and `linkify` (HTML escaping and URL
  linking depend on library behaviour). Rendering is the abstract `Template`.
  A parse failure, which is fatal in the source, is not modelled.
  `ExecuteTemplate` errors are not modelled either.
- The intermediate `tplbuf`. `io.ReadFull` is modelled as a loop that copies the rendered bytes into `tplout`.
- HTTP handler registration, `handleFactoidRequest` and `w.Write`. `Execute` returns the bytes it would write.
- `linkify`'s regular expression `urlre` and `template.HTMLEscapeString`.
- Real clocks and `os.Stat`: they are parameters.
- Trigger.Limiter.UsedRecently: one instant `now` stands for both clock readings of the source. `time.Since` saturation on overflow is not modelled.
- Text.ToLower: maps ASCII letters only, not Go's full Unicode case mapping.
- Go strings are byte strings, and chat input may be invalid UTF-8. The model's strings are sequences of Unicode scalar values, so invalid UTF-8 is not modelled. `strings.Index` and the slicing at factoids.go:208-227 work in byte offsets. Those agree with character offsets here, because every cut falls at an ASCII `!` or space.
- Text.IsAlpha: the `isalpha` pattern is not part of this model. It is taken as "non-empty, ASCII letters only".
- Chat I/O: notices and replies are returned, not sent. The notice recipient `nick`, the unused `target` argument of `tryHandleAdminFactoid` and debug logging (`D`) are left out.
- Persistence: `savestate` is returned. What the caller does with it is not part of this model.
- Admin.Store.Del, Admin.Store.AddAlias, Admin.Store.TryHandleAdminFactoid and Trigger.TryHandleFactoid require the store invariant. Without it the source's restart loops may never return (`CycleDiverges`). The store never breaks the invariant.
- Admin.Store.TryHandleAdminFactoid: requires at least two parts, because `parts[1]` panics otherwise.
- RenderCache.GroupAliases and RenderCache.BuildRecords: each element is inserted at its sorted place, where the source appends and then sorts once. `Order.SortedUnique` shows that both orders give the same result. Records are values, not `*Factoid` pointers.
- `rss.go`: feed polling, HTTP fetches and retry loops, which are I/O and concurrency.
