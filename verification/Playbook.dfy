/**
 * The memory of verified fixes: what is replayable, which pairs of workload and
 * problem have failed, and which of those are quarantined. Times are nanoseconds;
 * `A` is the remembered action.
 */
module Playbook {
  import opened Prelude

  datatype Entry<A> = Entry(
    controller: string, kind: string, action: A, confidence: string,
    hits: nat, recorded: int, lastHit: Option<int>, lastVerified: int, verifications: nat)

  datatype Scar = Scar(
    controller: string, kind: string, failures: nat, lastFailure: int, quarantinedUntil: Option<int>)
  {
    predicate Quarantined(now: int) {
      quarantinedUntil.Some? && now < quarantinedUntil.value
    }
  }

  const HOUR := 3_600_000_000_000
  const MAX_QUARANTINE := 14 * 24 * HOUR

  datatype Options = Options(maxEntries: int, maxFailures: int, quarantineFor: int, failureDecay: int, maxAge: int) {
    function WithDefaults(): (o: Options)
      ensures o.Filled() && o.maxAge == maxAge
      ensures o.maxEntries == (if maxEntries > 0 then maxEntries else 500)
      ensures o.maxFailures == if maxFailures > 0 then maxFailures else 2
      ensures o.quarantineFor == if quarantineFor > 0 then quarantineFor else 86_400_000_000_000
      ensures o.failureDecay == if failureDecay > 0 then failureDecay else 604_800_000_000_000
    {
      Options(if maxEntries <= 0 then 500 else maxEntries,
              if maxFailures <= 0 then 2 else maxFailures,
              if quarantineFor <= 0 then 24 * HOUR else quarantineFor,
              if failureDecay <= 0 then 7 * 24 * HOUR else failureDecay,
              maxAge)
    }

    predicate Filled() {
      maxEntries > 0 && maxFailures > 0 && quarantineFor > 0 && failureDecay > 0
    }
  }

  function Key(controller: string, kind: string): string {
    controller + "|" + kind
  }

  /** Controller keys hold no bar, so distinct pairs have distinct keys. */
  lemma KeysDistinguishPairs(a: string, kind: string, b: string, kind': string)
    requires '|' !in a && '|' !in b && Key(a, kind) == Key(b, kind')
    ensures a == b && kind == kind'
  {
    assert Key(a, kind) == a + ("|" + kind) && Key(b, kind') == b + ("|" + kind');
    FirstSeparator('|', a, kind, b, kind');
  }

  function EntryKey<A>(e: Entry<A>): string {
    Key(e.controller, e.kind)
  }

  function ScarKey(s: Scar): string {
    Key(s.controller, s.kind)
  }

  datatype State<A> = State(entries: map<string, Entry<A>>, scars: map<string, Scar>)

  predicate Barred<A>(b: State<A>, k: string, now: int) {
    k in b.scars && b.scars[k].Quarantined(now)
  }

  predicate KeysAgree<A>(b: State<A>) {
    && (forall k {:trigger EntryKey(b.entries[k])} | k in b.entries :: EntryKey(b.entries[k]) == k)
    && forall k {:trigger ScarKey(b.scars[k])} | k in b.scars :: ScarKey(b.scars[k]) == k
  }

  // ----- What each operation may do -----

  predicate IsOldest<A>(entries: map<string, Entry<A>>, k: string) {
    k in entries && forall j | j in entries :: entries[k].lastVerified <= entries[j].lastVerified
  }

  ghost predicate EvictedOne<A(!new)>(before: map<string, Entry<A>>, after: map<string, Entry<A>>) {
    if before == map[] then after == before
    else exists k :: IsOldest(before, k) && after == before - {k}
  }

  /** Making room for one more entry when the book is full. */
  ghost predicate MadeRoom<A(!new)>(opts: Options, before: map<string, Entry<A>>, after: map<string, Entry<A>>) {
    if |before| >= opts.maxEntries then EvictedOne(before, after) else after == before
  }

  /** What is remembered of a fix that has just held for the first time, or once more. */
  predicate LearnedAs<A(==)>(was: Option<Entry<A>>, controller: string, kind: string, action: A, confidence: string,
                             now: int, e: Entry<A>)
  {
    && e.controller == controller && e.kind == kind && e.action == action && e.confidence == confidence
    && e.lastVerified == now
    && match was
       case None => e.hits == 0 && e.recorded == now && e.lastHit == None && e.verifications == 1
       case Some(w) =>
         && e.hits == w.hits && e.recorded == w.recorded && e.lastHit == w.lastHit
         && e.verifications == w.verifications + 1
  }

  ghost predicate RecordNext<A(!new)>(opts: Options, b: State<A>, controller: string, kind: string, action: Option<A>,
                                      confidence: string, now: int, b': State<A>, learned: bool)
  {
    var k := Key(controller, kind);
    if action.None? || Barred(b, k, now) then b' == b && !learned
    else
      && learned && b'.scars == b.scars && k in b'.entries
      && if k in b.entries
         then
           && b'.entries == b.entries[k := b'.entries[k]]
           && LearnedAs(Some(b.entries[k]), b.entries[k].controller, b.entries[k].kind, action.value, confidence, now,
                        b'.entries[k])
         else
           && (exists room :: MadeRoom(opts, b.entries, room) && b'.entries == room[k := b'.entries[k]])
           && LearnedAs(None, controller, kind, action.value, confidence, now, b'.entries[k])
  }

  function Pow2(n: nat): nat {
    if n == 0 then 1 else 2 * Pow2(n - 1)
  }

  /** The wait doubles with each failure past the threshold, up to the ceiling. */
  function Wait(opts: Options, failures: nat): int
    requires failures >= opts.maxFailures
  {
    Min(opts.quarantineFor * Pow2(failures - opts.maxFailures), MAX_QUARANTINE)
  }

  /** The scar a further failure adds to: none so far, an expired streak, or a continuing one. */
  function SoFar(opts: Options, s: Option<Scar>, controller: string, kind: string, now: int): Scar {
    if s.None? then Scar(controller, kind, 0, now, None)
    else if now - s.value.lastFailure > opts.failureDecay then s.value.(failures := 0)
    else s.value
  }

  function OneMore(opts: Options, s: Scar, now: int): Scar {
    var counted := s.(failures := s.failures + 1, lastFailure := now);
    if counted.failures >= opts.maxFailures
    then counted.(quarantinedUntil := Some(now + Wait(opts, counted.failures)))
    else counted
  }

  /** A pair's scar after one more failure; `s` is its scar before, if any. */
  function Scarred(opts: Options, s: Option<Scar>, controller: string, kind: string, now: int): Scar {
    OneMore(opts, SoFar(opts, s, controller, kind, now), now)
  }

  predicate IsStalest(scars: map<string, Scar>, now: int, k: string) {
    && k in scars && !scars[k].Quarantined(now)
    && forall j | j in scars && !scars[j].Quarantined(now) :: scars[k].lastFailure <= scars[j].lastFailure
  }

  ghost predicate ForgotStalest(before: map<string, Scar>, now: int, after: map<string, Scar>) {
    if forall k | k in before :: before[k].Quarantined(now) then after == before
    else exists k :: IsStalest(before, now, k) && after == before - {k}
  }

  ghost predicate MadeScarRoom(opts: Options, before: map<string, Scar>, now: int, after: map<string, Scar>) {
    if |before| >= opts.maxEntries then ForgotStalest(before, now, after) else after == before
  }

  /** Only this pair's scar changes, unless a full book first forgets the stalest unquarantined one. */
  ghost predicate ScarAdded(opts: Options, before: map<string, Scar>, k: string, controller: string, kind: string,
                            now: int, after: map<string, Scar>)
  {
    if k in before then after == before[k := Scarred(opts, Some(before[k]), controller, kind, now)]
    else exists room ::
      MadeScarRoom(opts, before, now, room) && after == room[k := Scarred(opts, None, controller, kind, now)]
  }

  ghost predicate FailNext<A>(opts: Options, b: State<A>, controller: string, kind: string, now: int, b': State<A>,
                              removed: bool, quarantined: bool)
  {
    var k := Key(controller, kind);
    && (removed <==> k in b.entries) && b'.entries == b.entries - {k}
    && ScarAdded(opts, b.scars, k, controller, kind, now, b'.scars)
    && k in b'.scars && (quarantined <==> b'.scars[k].failures >= opts.maxFailures)
  }

  predicate Unconfirmed<A>(opts: Options, e: Entry<A>, now: int) {
    now - e.lastVerified > opts.maxAge
  }

  function Retired<A>(opts: Options, b: State<A>, now: int): State<A> {
    if opts.maxAge <= 0 || !exists k :: k in b.entries && Unconfirmed(opts, b.entries[k], now) then b
    else State(map k | k in b.entries && !Unconfirmed(opts, b.entries[k], now) :: b.entries[k],
               map k | k in b.scars && (b.scars[k].Quarantined(now) || now - b.scars[k].lastFailure <= opts.maxAge) ::
                 b.scars[k])
  }

  function Hit<A>(b: State<A>, k: string, now: int): State<A> {
    if k !in b.entries then b
    else b.(entries := b.entries[k := b.entries[k].(hits := b.entries[k].hits + 1, lastHit := Some(now))])
  }

  function Evicted<A>(b: State<A>, k: string): State<A> {
    b.(entries := b.entries - {k})
  }

  // ----- The book -----

  class Book<A(!new)> {
    const opts: Options
    var entries: map<string, Entry<A>>
    var scars: map<string, Scar>
    var dirty: bool

    constructor (opts: Options)
      ensures Valid() && this.opts == opts.WithDefaults()
      ensures Value() == State(map[], map[]) && !dirty
    {
      this.opts := opts.WithDefaults();
      entries := map[];
      scars := map[];
      dirty := false;
    }

    ghost function Value(): State<A>
      reads this
    {
      State(entries, scars)
    }

    ghost predicate Valid()
      reads this
    {
      opts.Filled() && KeysAgree(Value())
    }

    function Lookup(controller: string, kind: string): Option<Entry<A>>
      reads this
    {
      var k := Key(controller, kind);
      if k in entries then Some(entries[k]) else None
    }

    method Record(controller: string, kind: string, action: Option<A>, confidence: string, now: int)
      returns (learned: bool)
      requires Valid()
      modifies this`entries, this`dirty
      ensures Valid()
      ensures RecordNext(opts, old(Value()), controller, kind, action, confidence, now, Value(), learned)
      ensures dirty == (old(dirty) || learned)
    {
      if action.None? {
        return false;
      }
      var k := Key(controller, kind);
      if k in scars && scars[k].Quarantined(now) {
        return false;
      }
      dirty := true;
      if k in entries {
        assert EntryKey(entries[k]) == k;
        var e := entries[k];
        entries := entries[k := e.(action := action.value, confidence := confidence, lastVerified := now,
                                   verifications := e.verifications + 1)];
        return true;
      }
      ghost var before := entries;
      if |entries| >= opts.maxEntries {
        EvictOldest();
      }
      assert MadeRoom(opts, before, entries);
      ghost var room := entries;
      entries := entries[k := Entry(controller, kind, action.value, confidence, 0, now, None, now, 1)];
      assert entries == room[k := entries[k]];
      learned := true;
    }

    /** Drops the entry verified longest ago; among equals, whichever is met first. */
    method EvictOldest()
      requires Valid()
      modifies this`entries
      ensures Valid() && EvictedOne(old(entries), entries)
    {
      var oldest: Option<string> := None;
      var left := entries.Keys;
      while left != {}
        invariant left <= entries.Keys
        invariant oldest.None? ==> left == entries.Keys
        invariant oldest.Some? ==>
          && oldest.value in entries
          && forall j | j in entries && j !in left :: entries[oldest.value].lastVerified <= entries[j].lastVerified
      {
        var k :| k in left;
        left := left - {k};
        if oldest.None? || entries[k].lastVerified < entries[oldest.value].lastVerified {
          oldest := Some(k);
        }
      }
      if oldest.Some? {
        assert IsOldest(entries, oldest.value);
        entries := entries - {oldest.value};
      } else {
        assert entries == map[];
      }
    }

    method Fail(controller: string, kind: string, now: int) returns (removed: bool, quarantined: bool)
      requires Valid()
      modifies this`entries, this`scars, this`dirty
      ensures Valid() && dirty
      ensures FailNext(opts, old(Value()), controller, kind, now, Value(), removed, quarantined)
    {
      var k := Key(controller, kind);
      removed := k in entries;
      entries := entries - {k};
      quarantined := AddScar(k, controller, kind, now);
      dirty := true;
    }

    method AddScar(k: string, controller: string, kind: string, now: int) returns (quarantined: bool)
      requires Valid() && k == Key(controller, kind)
      modifies this`scars
      ensures Valid() && ScarAdded(opts, old(scars), k, controller, kind, now, scars)
      ensures k in scars && (quarantined <==> scars[k].failures >= opts.maxFailures)
    {
      assert k in scars ==> ScarKey(scars[k]) == k;
      var s := ScarSoFar(k, controller, kind, now);
      ghost var room := scars;
      assert k !in old(scars) ==> MadeScarRoom(opts, old(scars), now, room);
      s := s.(failures := s.failures + 1, lastFailure := now);
      quarantined := s.failures >= opts.maxFailures;
      if quarantined {
        s := s.(quarantinedUntil := Some(now + Wait(opts, s.failures)));
      }
      scars := scars[k := s];
    }

    /** The scar a further failure adds to, making room for a new one when there are too many. */
    method ScarSoFar(k: string, controller: string, kind: string, now: int) returns (s: Scar)
      requires Valid() && k == Key(controller, kind)
      modifies this`scars
      ensures Valid()
      ensures s == SoFar(opts, if k in old(scars) then Some(old(scars)[k]) else None, controller, kind, now)
      ensures if k in old(scars) then scars == old(scars) else MadeScarRoom(opts, old(scars), now, scars)
    {
      if k !in scars {
        if |scars| >= opts.maxEntries {
          ForgetStalestScar(now);
        }
        s := Scar(controller, kind, 0, now, None);
      } else {
        s := scars[k];
        if now - s.lastFailure > opts.failureDecay {
          s := s.(failures := 0);
        }
      }
    }

    /** Drops the pair that failed longest ago among those not quarantined, if there is one. */
    method ForgetStalestScar(now: int)
      requires Valid()
      modifies this`scars
      ensures Valid() && ForgotStalest(old(scars), now, scars)
    {
      var stalest: Option<string> := None;
      var left := scars.Keys;
      while left != {}
        invariant left <= scars.Keys
        invariant stalest.None? ==> forall j | j in scars && j !in left :: scars[j].Quarantined(now)
        invariant stalest.Some? ==>
          && stalest.value in scars && !scars[stalest.value].Quarantined(now)
          && forall j | j in scars && j !in left && !scars[j].Quarantined(now) ::
               scars[stalest.value].lastFailure <= scars[j].lastFailure
      {
        var k :| k in left;
        left := left - {k};
        if scars[k].Quarantined(now) {
          continue;
        }
        if stalest.None? || scars[k].lastFailure < scars[stalest.value].lastFailure {
          stalest := Some(k);
        }
      }
      if stalest.Some? {
        assert IsStalest(scars, now, stalest.value);
        scars := scars - {stalest.value};
      }
    }

    method Retire(now: int) returns (retired: set<string>)
      requires Valid()
      modifies this`entries, this`scars, this`dirty
      ensures Valid() && Value() == Retired(opts, old(Value()), now)
      ensures forall k ::
        (k in entries <==>
           k in old(entries) && (opts.maxAge > 0 ==> now - old(entries)[k].lastVerified <= opts.maxAge))
      ensures forall k ::
        (k in scars <==>
           && k in old(scars)
           && (retired == {} || old(scars)[k].Quarantined(now) || now - old(scars)[k].lastFailure <= opts.maxAge))
      ensures forall k | k in entries :: entries[k] == old(entries)[k]
      ensures forall k | k in scars :: scars[k] == old(scars)[k]
      ensures retired == old(entries).Keys - entries.Keys
      ensures dirty == (old(dirty) || retired != {})
    {
      retired := {};
      if opts.maxAge <= 0 {
        return;
      }
      ghost var was := entries;
      var left := entries.Keys;
      while left != {}
        modifies this`entries
        invariant left <= was.Keys
        invariant retired == set k | k in was && k !in left && Unconfirmed(opts, was[k], now)
        invariant entries == map k | k in was && k !in retired :: was[k]
      {
        var k :| k in left;
        left := left - {k};
        if now - entries[k].lastVerified > opts.maxAge {
          retired := retired + {k};
          entries := entries - {k};
        }
      }
      if retired == {} {
        assert entries == was;
        assert forall k | k in was && Unconfirmed(opts, was[k], now) :: k in retired;
        return;
      }
      assert exists k :: k in was && Unconfirmed(opts, was[k], now);
      scars := map k |
        k in scars && (scars[k].Quarantined(now) || now - scars[k].lastFailure <= opts.maxAge) :: scars[k];
      dirty := true;
    }

    method Quarantined(controller: string, kind: string, now: int) returns (until: Option<int>)
      ensures until.Some? <==> Barred(Value(), Key(controller, kind), now)
      ensures until.Some? ==> until == scars[Key(controller, kind)].quarantinedUntil
    {
      var k := Key(controller, kind);
      until := if k in scars && scars[k].Quarantined(now) then scars[k].quarantinedUntil else None;
    }

    method MarkHit(controller: string, kind: string, now: int)
      requires Valid()
      modifies this`entries, this`dirty
      ensures Valid() && Value() == Hit(old(Value()), Key(controller, kind), now)
      ensures entries.Keys == old(entries).Keys
      ensures forall k | k in entries && k != Key(controller, kind) :: entries[k] == old(entries)[k]
      ensures var k := Key(controller, kind);
        k in entries ==> entries[k] == old(entries)[k].(hits := old(entries)[k].hits + 1, lastHit := Some(now))
    {
      var k := Key(controller, kind);
      if k in entries {
        assert EntryKey(entries[k]) == k;
        entries := entries[k := entries[k].(hits := entries[k].hits + 1, lastHit := Some(now))];
        dirty := true;
      }
    }

    method Evict(controller: string, kind: string) returns (removed: bool)
      requires Valid()
      modifies this`entries, this`dirty
      ensures Valid() && Value() == Evicted(old(Value()), Key(controller, kind))
      ensures entries.Keys == old(entries).Keys - {Key(controller, kind)}
      ensures forall k | k in entries :: entries[k] == old(entries)[k]
      ensures removed <==> Key(controller, kind) in old(entries)
    {
      var k := Key(controller, kind);
      removed := k in entries;
      if removed {
        entries := entries - {k};
        dirty := true;
      }
    }

    /** Everything worth persisting, in some order. */
    method Saved() returns (entryList: seq<Entry<A>>, scarList: seq<Scar>)
      requires Valid()
      ensures ListsEntries(entryList, entries) && ListsScars(scarList, scars)
    {
      entryList, scarList := [], [];
      var left := entries.Keys;
      while left != {}
        invariant left <= entries.Keys
        invariant forall e | e in entryList :: EntryKey(e) in entries && entries[EntryKey(e)] == e
        invariant forall k | k in entries && k !in left :: entries[k] in entryList
      {
        var k :| k in left;
        left := left - {k};
        entryList := entryList + [entries[k]];
      }
      left := scars.Keys;
      while left != {}
        invariant left <= scars.Keys
        invariant forall s | s in scarList :: ScarKey(s) in scars && scars[ScarKey(s)] == s
        invariant forall k | k in scars && k !in left :: scars[k] in scarList
      {
        var k :| k in left;
        left := left - {k};
        scarList := scarList + [scars[k]];
      }
    }

    /** Replaces the state with a persisted one, without marking it changed. */
    method Restore(entryList: seq<Entry<A>>, scarList: seq<Scar>)
      requires Valid()
      modifies this`entries, this`scars
      ensures Valid()
      ensures forall m | ListsEntries(entryList, m) :: entries == m
      ensures forall m | ListsScars(scarList, m) :: scars == m
    {
      entries := map[];
      for i := 0 to |entryList|
        modifies this`entries
        invariant forall k | k in entries :: EntryKey(entries[k]) == k && entries[k] in entryList
        invariant forall j | 0 <= j < i :: EntryKey(entryList[j]) in entries
      {
        entries := entries[EntryKey(entryList[i]) := entryList[i]];
      }
      scars := map[];
      for i := 0 to |scarList|
        modifies this`scars
        invariant forall k | k in scars :: ScarKey(scars[k]) == k && scars[k] in scarList
        invariant forall j | 0 <= j < i :: ScarKey(scarList[j]) in scars
      {
        scars := scars[ScarKey(scarList[i]) := scarList[i]];
      }
      forall m | ListsEntries(entryList, m)
        ensures entries == m
      {
        assert forall k | k in m :: exists j :: 0 <= j < |entryList| && entryList[j] == m[k];
      }
      forall m | ListsScars(scarList, m)
        ensures scars == m
      {
        assert forall k | k in m :: exists j :: 0 <= j < |scarList| && scarList[j] == m[k];
      }
    }
  }

  /** The list holds exactly the map's values, each under its own key. */
  ghost predicate ListsEntries<A>(list: seq<Entry<A>>, m: map<string, Entry<A>>) {
    && (forall e | e in list :: EntryKey(e) in m && m[EntryKey(e)] == e)
    && forall k | k in m :: m[k] in list && EntryKey(m[k]) == k
  }

  ghost predicate ListsScars(list: seq<Scar>, m: map<string, Scar>) {
    && (forall s | s in list :: ScarKey(s) in m && m[ScarKey(s)] == s)
    && forall k | k in m :: m[k] in list && ScarKey(m[k]) == k
  }
}
