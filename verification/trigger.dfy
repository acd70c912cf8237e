/**
 * The trigger path: `tryHandleFactoid` parses `!key [addressee]`, resolves the
 * key, applies the per-factoid cooldown of `factoidUsedRecently`, and replies
 * with the factoid's body.
 */
module Trigger {
  import opened Options
  import opened Text
  import opened Resolver
  import opened Admin

  /** Times are nanosecond counts, as Go's `time.Duration`; the cooldown is 30 s. */
  const Cooldown: int := 30 * 1000000000

  /** A parsed trigger line: the lower-cased key and, when a space follows it, the addressee. */
  datatype Trigger = Trigger(key: string, addressee: Option<string>)

  /**
   * `srv.privmsg(target, rest, ": ", factoid)` when an addressee was given,
   * `srv.privmsg(target, factoid)` otherwise.
   */
  datatype Privmsg = Privmsg(target: string, addressee: Option<string>, text: string)

  /** Where the key ends: at the first space, or at the end of the line. */
  function KeyEnd(m: string): (p: nat)
    ensures p <= |m|
    ensures ' ' !in m[..p]
    ensures p < |m| ==> m[p] == ' '
  {
    var i := IndexOf(m, ' ');
    if i < 0 then |m| else i
  }

  /**
   * What follows the key's space, cut at its next space, unless that space
   * comes first (`pos > 0` in the source), in which case all of it is kept.
   */
  function FirstWord(rest: string): (w: string)
    ensures ' ' !in rest ==> w == rest
    ensures rest != [] && rest[0] == ' ' ==> w == rest
    ensures |w| <= |rest|
    ensures rest != [] && rest[0] != ' ' ==> w != [] && ' ' !in w && rest[..|w|] == w
    ensures rest != [] && rest[0] != ' ' && |w| < |rest| ==> rest[|w|] == ' '
  {
    var p := IndexOf(rest, ' ');
    if p > 0 then rest[..p] else rest
  }

  /**
   * The parsing half of `tryHandleFactoid`: a line starting with `!` whose
   * lower-cased key passes `isalpha`; the addressee is present exactly when
   * the line holds a space.
   */
  function ParseTrigger(m: string): (r: Option<Trigger>)
    ensures r.Some? ==> IsAlpha(r.value.key)
  {
    if |m| == 0 || m[0] != '!' then None
    else
      var pos := KeyEnd(m);
      var key := ToLower(m[1..pos]);
      if !IsAlpha(key) then None
      else if pos == |m| then Some(Trigger(key, None))
      else Some(Trigger(key, Some(FirstWord(m[pos + 1..]))))
  }

  /**
   * A line is a trigger exactly when it starts with `!` and the text up to
   * the first space, lower-cased, passes `isalpha`; that text is the key, and
   * an addressee is present exactly when the line holds a space.
   */
  lemma ParseTriggerSpec(m: string)
    ensures ParseTrigger(m).Some? <==> |m| > 0 && m[0] == '!' && IsAlpha(ToLower(m[1..KeyEnd(m)]))
    ensures ParseTrigger(m).Some? ==>
      ParseTrigger(m).value.key == ToLower(m[1..KeyEnd(m)]) && IsAlpha(ParseTrigger(m).value.key)
    ensures ParseTrigger(m).Some? ==> (ParseTrigger(m).value.addressee.None? <==> ' ' !in m)
  {
  }

  /** `!key` alone triggers the lower-cased key with no addressee. */
  lemma ParseBare(k: string)
    requires ' ' !in k && IsAlpha(ToLower(k))
    ensures ParseTrigger("!" + k) == Some(Trigger(ToLower(k), None))
  {
    var m := "!" + k;
    assert m == ['!'] + k;
    assert ' ' !in m;
    assert KeyEnd(m) == |m|;
    assert m[1..|m|] == k;
    assert ParseTrigger(m) == Some(Trigger(ToLower(m[1..|m|]), None));
  }

  /** `!key rest` triggers the lower-cased key, addressed to `FirstWord(rest)`. */
  lemma ParseAfterKey(k: string, rest: string)
    requires ' ' !in k && IsAlpha(ToLower(k))
    ensures ParseTrigger("!" + k + " " + rest) == Some(Trigger(ToLower(k), Some(FirstWord(rest))))
  {
    var m := "!" + k + " " + rest;
    assert m == ("!" + k) + [' '] + rest;
    IndexOfAfter("!" + k, ' ', rest);
    assert KeyEnd(m) == |k| + 1;
    assert m[1..|k| + 1] == k;
    assert m[|k| + 2..] == rest;
  }

  /**
   * `!key word rest`, where `rest` is empty or starts with a space, triggers
   * the lower-cased key addressed to `word`; the rest is ignored.
   */
  lemma ParseAddressed(k: string, w: string, tail: string)
    requires ' ' !in k && IsAlpha(ToLower(k))
    requires w != [] && ' ' !in w
    requires tail == [] || tail[0] == ' '
    ensures ParseTrigger("!" + k + " " + w + tail) == Some(Trigger(ToLower(k), Some(w)))
  {
    var rest := w + tail;
    assert "!" + k + " " + w + tail == "!" + k + " " + rest;
    ParseAfterKey(k, rest);
    if tail == [] {
      assert rest == w;
    } else {
      assert tail == [' '] + tail[1..];
      assert rest == w + [' '] + tail[1..];
      IndexOfAfter(w, ' ', tail[1..]);
      assert rest[..|w|] == w;
    }
  }

  /**
   * When two spaces follow the key, the whole rest of the line, leading space
   * included, becomes the addressee.
   */
  lemma ParseDoubleSpace(k: string, rest: string)
    requires ' ' !in k && IsAlpha(ToLower(k))
    ensures ParseTrigger("!" + k + " " + " " + rest) == Some(Trigger(ToLower(k), Some(" " + rest)))
  {
    var tail := " " + rest;
    assert "!" + k + " " + " " + rest == "!" + k + " " + tail;
    ParseAfterKey(k, tail);
    assert FirstWord(tail) == tail;
  }

  /** `factoidUsedRecently`'s verdict: a previous stamp less than 30 s old. */
  predicate RecentlyUsed(used: map<string, int>, key: string, now: int) {
    key in used && now - used[key] < Cooldown
  }

  /** The verdicts of successive triggers of one key at the given times. */
  function Replay(used: map<string, int>, key: string, times: seq<int>): (r: seq<bool>)
    ensures |r| == |times|
    decreases |times|
  {
    if times == [] then []
    else [RecentlyUsed(used, key, times[0])] + Replay(used[key := times[0]], key, times[1..])
  }

  /**
   * Every attempt refreshes the stamp, so each trigger after the first is
   * suppressed exactly when it comes less than 30 s after the one before it,
   * suppressed or not; sustained spam stays suppressed.
   */
  lemma {:induction false} ReplayVerdicts(used: map<string, int>, key: string, times: seq<int>)
    ensures forall i :: 0 < i < |times| ==>
      Replay(used, key, times)[i] == (times[i] - times[i - 1] < Cooldown)
    ensures times != [] ==> Replay(used, key, times)[0] == RecentlyUsed(used, key, times[0])
    decreases |times|
  {
    if times != [] {
      var rest := times[1..];
      ReplayVerdicts(used[key := times[0]], key, rest);
      var r := Replay(used, key, times);
      forall i | 0 < i < |times|
        ensures r[i] == (times[i] - times[i - 1] < Cooldown)
      {
        if i == 1 {
          assert r[1] == RecentlyUsed(used[key := times[0]], key, rest[0]);
        } else {
          assert r[i] == Replay(used[key := times[0]], key, rest)[i - 1];
          assert rest[i - 1] == times[i] && rest[i - 2] == times[i - 1];
        }
      }
    }
  }

  /**
   * The cooldown rule on three calls: not recent at first, recent again
   * within 30 s, and not recent once 30 s have passed since the last stamp.
   */
  lemma CooldownScenario(used: map<string, int>, key: string, t1: int, t2: int, t3: int)
    requires key !in used
    requires t2 - t1 < Cooldown && t3 - t2 >= Cooldown
    ensures Replay(used, key, [t1, t2, t3]) == [false, true, false]
  {
    ReplayVerdicts(used, key, [t1, t2, t3]);
  }

  /** `usedfactoids`, the stamp of each resolved key's last trigger. */
  class Limiter {
    var used: map<string, int>

    constructor ()
      ensures used == map[]
    {
      used := map[];
    }

    /** `factoidUsedRecently`: give the verdict, and stamp the key with `now` either way. */
    method UsedRecently(key: string, now: int) returns (recent: bool)
      modifies this
      ensures recent == RecentlyUsed(old(used), key, now)
      ensures used == old(used)[key := now]
    {
      if key in used && now - used[key] < Cooldown {
        used := used[key := now];
        return true;
      }
      used := used[key := now];
      return false;
    }
  }

  /**
   * `tryHandleFactoid`: a line that is not a trigger returns `false` and
   * touches nothing; an unresolved key returns `true` without a reply; a
   * resolved key is stamped, and replied to unless it was used recently, in
   * which case the handler returns `false`.
   */
  method TryHandleFactoid(store: Store, limiter: Limiter, target: string, message: string, now: int)
    returns (abort: bool, reply: Option<Privmsg>)
    requires store.Valid()
    modifies limiter
    ensures ParseTrigger(message).None? ==> !abort && reply == None && limiter.used == old(limiter.used)
    ensures ParseTrigger(message).Some? ==>
      match Canonical(store.factoids, store.aliases, ParseTrigger(message).value.key)
      case None => abort && reply == None && limiter.used == old(limiter.used)
      case Some(c) =>
        && limiter.used == old(limiter.used)[c := now]
        && (RecentlyUsed(old(limiter.used), c, now) ==> !abort && reply == None)
        && (!RecentlyUsed(old(limiter.used), c, now) ==>
              abort && reply == Some(Privmsg(target, ParseTrigger(message).value.addressee, store.factoids[c])))
  {
    var t := ParseTrigger(message);
    if t.None? {
      return false, None;
    }
    ResolveIsCanonical(store.factoids, store.aliases, t.value.key);
    var r := GetFactoidByKey(store.factoids, store.aliases, t.value.key);
    if r.ok {
      var recent := limiter.UsedRecently(r.key, now);
      if recent {
        return false, None;
      }
      reply := Some(Privmsg(target, t.value.addressee, r.factoid));
    } else {
      reply := None;
    }
    abort := true;
  }
}
