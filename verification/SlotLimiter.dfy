/**
 * internal/app/judge_agent_slots.go: a judge agent's slots, one pool for all languages and one
 * per limited language. A caller takes the global slot first and may then wait for the other.
 */
module SlotLimiter {
  import opened Wrappers
  import opened Sorting
  import opened Sums
  import opened Text

  /** A buffered channel of one language. */
  datatype Channel = Channel(key: string, capacity: nat, used: nat)

  /** One Acquire call and the release function it returns. */
  datatype Caller =
    | AwaitsGlobal(language: string)
    | AwaitsLanguage(language: string)
    | Holding(slot: Option<string>)
    | Releasing
    | Released
    | GaveUp

  datatype State = State(capacity: nat, used: nat, languages: seq<Channel>, callers: seq<Caller>)

  datatype Action =
    | Arrive(language: string)
    | TakeGlobal(i: nat)
    | TakeLanguage(i: nat)
    | CancelBefore(i: nat)
    | CancelAfter(i: nat)
    | Release(i: nat)
    | ReleaseGlobal(i: nat)
    | ReleaseAgain(i: nat)

  predicate Limited(languages: seq<Channel>, key: string) {
    exists k :: 0 <= k < |languages| && languages[k].key == key
  }

  function Index(languages: seq<Channel>, key: string): (k: nat)
    requires Limited(languages, key)
    ensures k < |languages| && languages[k].key == key
  {
    if languages[0].key == key then 0 else 1 + Index(languages[1..], key)
  }

  function Changed(languages: seq<Channel>, key: string, used: nat): seq<Channel>
    requires Limited(languages, key)
  {
    var k := Index(languages, key);
    languages[k := Channel(languages[k].key, languages[k].capacity, used)]
  }

  function UsedOf(languages: seq<Channel>, key: string): nat
    requires Limited(languages, key)
  {
    languages[Index(languages, key)].used
  }

  predicate Room(languages: seq<Channel>, key: string)
    requires Limited(languages, key)
  {
    UsedOf(languages, key) < languages[Index(languages, key)].capacity
  }

  /** A send on a full channel, or a receive from an empty one, has to wait. */
  predicate Enabled(s: State, a: Action) {
    match a
    case Arrive(_) => true
    case TakeGlobal(i) => i < |s.callers| && s.callers[i].AwaitsGlobal? && s.used < s.capacity
    case TakeLanguage(i) =>
      i < |s.callers| && s.callers[i].AwaitsLanguage? && Limited(s.languages, s.callers[i].language) && Room(s.languages, s.callers[i].language)
    case CancelBefore(i) => i < |s.callers| && s.callers[i].AwaitsGlobal?
    case CancelAfter(i) => i < |s.callers| && s.callers[i].AwaitsLanguage? && s.used > 0
    case Release(i) =>
      && i < |s.callers| && s.callers[i].Holding?
      && (match s.callers[i].slot
          case None => s.used > 0
          case Some(key) => Limited(s.languages, key) && UsedOf(s.languages, key) > 0)
    case ReleaseGlobal(i) => i < |s.callers| && s.callers[i].Releasing? && s.used > 0
    case ReleaseAgain(i) => i < |s.callers| && (s.callers[i].Releasing? || s.callers[i].Released?)
  }

  function After(s: State, a: Action): State
    requires Enabled(s, a)
  {
    match a
    case Arrive(language) => s.(callers := s.callers + [AwaitsGlobal(language)])
    case TakeGlobal(i) =>
      var language := s.callers[i].language;
      s.(used := s.used + 1,
         callers := s.callers[i := if Limited(s.languages, language) then AwaitsLanguage(language) else Holding(None)])
    case TakeLanguage(i) =>
      var key := s.callers[i].language;
      s.(languages := Changed(s.languages, key, UsedOf(s.languages, key) + 1), callers := s.callers[i := Holding(Some(key))])
    case CancelBefore(i) => s.(callers := s.callers[i := GaveUp])
    case CancelAfter(i) => s.(used := s.used - 1, callers := s.callers[i := GaveUp])
    case Release(i) =>
      (match s.callers[i].slot
       case None => s.(used := s.used - 1, callers := s.callers[i := Released])
       case Some(key) => s.(languages := Changed(s.languages, key, UsedOf(s.languages, key) - 1), callers := s.callers[i := Releasing]))
    case ReleaseGlobal(i) => s.(used := s.used - 1, callers := s.callers[i := Released])
    case ReleaseAgain(_) => s
  }

  /** As built: nothing used, every capacity positive, no language twice. */
  ghost predicate Initial(s: State) {
    && s.capacity > 0 && s.used == 0 && s.callers == []
    && (forall k | 0 <= k < |s.languages| :: s.languages[k].used == 0 && s.languages[k].capacity > 0)
    && (forall j, k | 0 <= j < k < |s.languages| :: s.languages[j].key != s.languages[k].key)
  }

  ghost predicate Run(trace: seq<State>, actions: seq<Action>) {
    && |trace| == |actions| + 1
    && Initial(trace[0])
    && forall n | 0 <= n < |actions| :: Enabled(trace[n], actions[n]) && trace[n + 1] == After(trace[n], actions[n])
  }

  // ----- who holds what -----

  function HoldsGlobal(): Caller -> nat {
    (c: Caller) => if c.AwaitsLanguage? || c.Holding? || c.Releasing? then 1 else 0
  }

  function HoldsLanguage(key: string): Caller -> nat {
    (c: Caller) => if c == Holding(Some(key)) then 1 else 0
  }

  function HoldsAnyLanguage(): Caller -> nat {
    (c: Caller) => if c.Holding? && c.slot.Some? then 1 else 0
  }

  function Used(): Channel -> nat {
    (c: Channel) => c.used
  }

  ghost predicate ChannelOk(c: Channel, callers: seq<Caller>) {
    c.used == Sum(HoldsLanguage(c.key), callers) && c.used <= c.capacity && c.capacity > 0
  }

  ghost predicate CallersOk(languages: seq<Channel>, callers: seq<Caller>) {
    forall i | 0 <= i < |callers| ::
      && (callers[i].AwaitsLanguage? ==> Limited(languages, callers[i].language))
      && (callers[i].Holding? && callers[i].slot.Some? ==> Limited(languages, callers[i].slot.value))
  }

  ghost predicate Inv(s: State) {
    && s.used == Sum(HoldsGlobal(), s.callers) && s.used <= s.capacity && s.capacity > 0
    && Sum(Used(), s.languages) == Sum(HoldsAnyLanguage(), s.callers)
    && (forall k | 0 <= k < |s.languages| :: ChannelOk(s.languages[k], s.callers))
    && (forall j, k | 0 <= j < k < |s.languages| :: s.languages[j].key != s.languages[k].key)
    && CallersOk(s.languages, s.callers)
  }

  /** A caller moves without taking or freeing a language slot. */
  lemma CallerMoves(s: State, i: nat, c: Caller, used: nat)
    requires Inv(s) && i < |s.callers| && used <= s.capacity
    requires used + HoldsGlobal()(s.callers[i]) == s.used + HoldsGlobal()(c)
    requires !(s.callers[i].Holding? && s.callers[i].slot.Some?) && !(c.Holding? && c.slot.Some?)
    requires c.AwaitsLanguage? ==> Limited(s.languages, c.language)
    ensures Inv(s.(used := used, callers := s.callers[i := c]))
  {
    SumUpdate(HoldsGlobal(), s.callers, i, c);
    SumUpdate(HoldsAnyLanguage(), s.callers, i, c);
    forall k | 0 <= k < |s.languages| ensures ChannelOk(s.languages[k], s.callers[i := c]) {
      SumUpdate(HoldsLanguage(s.languages[k].key), s.callers, i, c);
      assert ChannelOk(s.languages[k], s.callers);
    }
  }

  /** One channel follows what one caller does to it; the others do not notice. */
  lemma ChannelsFollow(s: State, i: nat, c: Caller, key: string, used: nat, k: nat)
    requires Inv(s) && i < |s.callers| && Limited(s.languages, key) && k < |s.languages|
    requires used + HoldsLanguage(key)(s.callers[i]) == UsedOf(s.languages, key) + HoldsLanguage(key)(c)
    requires used <= s.languages[Index(s.languages, key)].capacity
    requires HoldsLanguage(key)(s.callers[i]) == HoldsAnyLanguage()(s.callers[i]) && HoldsLanguage(key)(c) == HoldsAnyLanguage()(c)
    ensures ChannelOk(Changed(s.languages, key, used)[k], s.callers[i := c])
  {
    assert ChannelOk(s.languages[k], s.callers);
    SumUpdate(HoldsLanguage(s.languages[k].key), s.callers, i, c);
    if k != Index(s.languages, key) {
      assert s.languages[k].key != key;
    }
  }

  lemma CallersFollow(s: State, i: nat, c: Caller, key: string, used: nat)
    requires CallersOk(s.languages, s.callers) && i < |s.callers| && Limited(s.languages, key)
    requires !c.AwaitsLanguage? && (c.Holding? && c.slot.Some? ==> c.slot.value == key)
    ensures CallersOk(Changed(s.languages, key, used), s.callers[i := c])
  {
    LimitedKept(s.languages, key, used);
  }

  lemma SumsFollow(s: State, i: nat, c: Caller, key: string, used: nat)
    requires i < |s.callers| && Limited(s.languages, key)
    requires HoldsGlobal()(s.callers[i]) == HoldsGlobal()(c)
    requires used + HoldsAnyLanguage()(s.callers[i]) == UsedOf(s.languages, key) + HoldsAnyLanguage()(c)
    ensures Sum(HoldsGlobal(), s.callers[i := c]) == Sum(HoldsGlobal(), s.callers)
    ensures Sum(Used(), Changed(s.languages, key, used)) + Sum(HoldsAnyLanguage(), s.callers)
            == Sum(Used(), s.languages) + Sum(HoldsAnyLanguage(), s.callers[i := c])
  {
    var n := Index(s.languages, key);
    SumUpdate(HoldsGlobal(), s.callers, i, c);
    SumUpdate(HoldsAnyLanguage(), s.callers, i, c);
    SumUpdate(Used(), s.languages, n, Channel(s.languages[n].key, s.languages[n].capacity, used));
  }

  /** A caller takes or frees a slot of a limited language and keeps its global slot. */
  lemma SlotMoves(s: State, i: nat, c: Caller, key: string, used: nat)
    requires Inv(s) && i < |s.callers| && Limited(s.languages, key)
    requires HoldsGlobal()(s.callers[i]) == HoldsGlobal()(c)
    requires !c.AwaitsLanguage? && (c.Holding? && c.slot.Some? ==> c.slot.value == key)
    requires used + HoldsLanguage(key)(s.callers[i]) == UsedOf(s.languages, key) + HoldsLanguage(key)(c)
    requires used <= s.languages[Index(s.languages, key)].capacity
    requires HoldsLanguage(key)(s.callers[i]) == HoldsAnyLanguage()(s.callers[i]) && HoldsLanguage(key)(c) == HoldsAnyLanguage()(c)
    ensures Inv(s.(languages := Changed(s.languages, key, used), callers := s.callers[i := c]))
  {
    SumsFollow(s, i, c, key, used);
    CallersFollow(s, i, c, key, used);
    forall k | 0 <= k < |s.languages| ensures ChannelOk(Changed(s.languages, key, used)[k], s.callers[i := c]) {
      ChannelsFollow(s, i, c, key, used, k);
    }
  }

  lemma LimitedKept(languages: seq<Channel>, key: string, used: nat)
    requires Limited(languages, key)
    ensures forall other :: Limited(Changed(languages, key, used), other) <==> Limited(languages, other)
  {
    var changed := Changed(languages, key, used);
    forall other ensures Limited(changed, other) <==> Limited(languages, other) {
      if k :| 0 <= k < |languages| && languages[k].key == other {
        assert changed[k].key == other;
      }
      if k :| 0 <= k < |changed| && changed[k].key == other {
        assert languages[k].key == other;
      }
    }
  }

  lemma ArriveKeeps(s: State, language: string)
    requires Inv(s)
    ensures Inv(After(s, Arrive(language)))
  {
    var c := AwaitsGlobal(language);
    SumAppend(HoldsGlobal(), s.callers, c);
    SumAppend(HoldsAnyLanguage(), s.callers, c);
    forall k | 0 <= k < |s.languages| ensures ChannelOk(s.languages[k], s.callers + [c]) {
      SumAppend(HoldsLanguage(s.languages[k].key), s.callers, c);
      assert ChannelOk(s.languages[k], s.callers);
    }
  }

  lemma StepKeeps(s: State, a: Action)
    requires Inv(s) && Enabled(s, a)
    ensures Inv(After(s, a))
  {
    match a
    case Arrive(language) => ArriveKeeps(s, language);
    case TakeGlobal(i) => TakeGlobalKeeps(s, i);
    case TakeLanguage(i) => TakeLanguageKeeps(s, i);
    case CancelBefore(i) => CallerMoves(s, i, GaveUp, s.used);
    case CancelAfter(i) => CallerMoves(s, i, GaveUp, s.used - 1);
    case Release(i) => ReleaseKeeps(s, i);
    case ReleaseGlobal(i) => CallerMoves(s, i, Released, s.used - 1);
    case ReleaseAgain(_) =>
  }

  lemma TakeGlobalKeeps(s: State, i: nat)
    requires Inv(s) && Enabled(s, TakeGlobal(i))
    ensures Inv(After(s, TakeGlobal(i)))
  {
    var language := s.callers[i].language;
    CallerMoves(s, i, if Limited(s.languages, language) then AwaitsLanguage(language) else Holding(None), s.used + 1);
  }

  lemma TakeLanguageKeeps(s: State, i: nat)
    requires Inv(s) && Enabled(s, TakeLanguage(i))
    ensures Inv(After(s, TakeLanguage(i)))
  {
    var key := s.callers[i].language;
    SlotMoves(s, i, Holding(Some(key)), key, UsedOf(s.languages, key) + 1);
  }

  lemma ReleaseKeeps(s: State, i: nat)
    requires Inv(s) && Enabled(s, Release(i))
    ensures Inv(After(s, Release(i)))
  {
    if s.callers[i].slot.None? {
      CallerMoves(s, i, Released, s.used - 1);
    } else {
      var key := s.callers[i].slot.value;
      SlotMoves(s, i, Releasing, key, UsedOf(s.languages, key) - 1);
    }
  }

  lemma InitialOk(s: State)
    requires Initial(s)
    ensures Inv(s)
  {
    SumZero(Used(), s.languages);
  }

  lemma {:induction false} RunKeeps(trace: seq<State>, actions: seq<Action>, n: nat)
    requires Run(trace, actions) && n < |trace|
    ensures Inv(trace[n])
  {
    if n > 0 {
      RunKeeps(trace, actions, n - 1);
      StepKeeps(trace[n - 1], actions[n - 1]);
    } else {
      InitialOk(trace[0]);
    }
  }

  // ----- what it means -----

  /** Language slots in use, together, never exceed the global ones, and those never exceed the capacity. */
  lemma SlotsAreBounded(trace: seq<State>, actions: seq<Action>, n: nat)
    requires Run(trace, actions) && n < |trace|
    ensures Sum(Used(), trace[n].languages) <= trace[n].used <= trace[n].capacity
    ensures forall k | 0 <= k < |trace[n].languages| :: trace[n].languages[k].used <= trace[n].languages[k].capacity
  {
    RunKeeps(trace, actions, n);
    SumAtMost(HoldsAnyLanguage(), HoldsGlobal(), trace[n].callers);
    forall k | 0 <= k < |trace[n].languages| ensures trace[n].languages[k].used <= trace[n].languages[k].capacity {
      assert ChannelOk(trace[n].languages[k], trace[n].callers);
    }
  }

  /** Who waits for a language slot waits for a caller that holds one and is not itself waiting. */
  lemma BlockedOnHolder(trace: seq<State>, actions: seq<Action>, n: nat, i: nat) returns (j: nat)
    requires Run(trace, actions) && n < |trace| && i < |trace[n].callers| && trace[n].callers[i].AwaitsLanguage?
    requires !Enabled(trace[n], TakeLanguage(i))
    ensures j < |trace[n].callers| && trace[n].callers[j] == Holding(Some(trace[n].callers[i].language))
    ensures Enabled(trace[n], Release(j))
  {
    RunKeeps(trace, actions, n);
    var s := trace[n];
    assert CallersOk(s.languages, s.callers);
    var k := Index(s.languages, s.callers[i].language);
    assert ChannelOk(s.languages[k], s.callers);
    j := SumWitness(HoldsLanguage(s.languages[k].key), s.callers);
  }

  /** Nobody waits in vain: while a caller waits, a caller holds slots without waiting, or somebody can take one. */
  lemma SomeoneIsFree(trace: seq<State>, actions: seq<Action>, n: nat, i: nat) returns (a: Action)
    requires Run(trace, actions) && n < |trace| && i < |trace[n].callers|
    requires trace[n].callers[i].AwaitsGlobal? || trace[n].callers[i].AwaitsLanguage?
    ensures Enabled(trace[n], a) && (a.TakeGlobal? || a.TakeLanguage? || a.Release? || a.ReleaseGlobal?)
  {
    RunKeeps(trace, actions, n);
    var s := trace[n];
    var j := i;
    if s.callers[i].AwaitsGlobal? {
      if s.used < s.capacity {
        return TakeGlobal(i);
      }
      j := SumWitness(HoldsGlobal(), s.callers);
    }
    if s.callers[j].Releasing? {
      return ReleaseGlobal(j);
    }
    if s.callers[j].AwaitsLanguage? && !Enabled(s, TakeLanguage(j)) {
      j := BlockedOnHolder(trace, actions, n, j);
    }
    if s.callers[j].AwaitsLanguage? {
      return TakeLanguage(j);
    }
    assert CallersOk(s.languages, s.callers) && s.callers[j].Holding?;
    if s.callers[j].slot.Some? {
      HolderCounts(s, j);
    } else {
      SumIncludes(HoldsGlobal(), s.callers, j);
    }
    return Release(j);
  }

  lemma HolderCounts(s: State, j: nat)
    requires Inv(s) && j < |s.callers| && s.callers[j].Holding? && s.callers[j].slot.Some?
    ensures Limited(s.languages, s.callers[j].slot.value) && UsedOf(s.languages, s.callers[j].slot.value) > 0
  {
    assert CallersOk(s.languages, s.callers);
    var key := s.callers[j].slot.value;
    var k := Index(s.languages, key);
    assert ChannelOk(s.languages[k], s.callers);
    SumIncludes(HoldsLanguage(key), s.callers, j);
  }

  // ----- a caller that gives up, among any others -----

  predicate By(i: nat, a: Action) {
    a == TakeGlobal(i) || a == TakeLanguage(i) || a == CancelBefore(i) || a == CancelAfter(i)
    || a == Release(i) || a == ReleaseGlobal(i) || a == ReleaseAgain(i)
  }

  function ByOthers(i: nat): Action -> bool {
    (a: Action) => !By(i, a)
  }

  /** The state after some actions, if each of them can be taken in turn. */
  function RunFrom(s: State, actions: seq<Action>): Option<State> {
    if actions == [] then Some(s)
    else
      match RunFrom(s, actions[..|actions| - 1])
      case None => None
      case Some(t) => if Enabled(t, actions[|actions| - 1]) then Some(After(t, actions[|actions| - 1])) else None
  }

  lemma RunOneMore(s: State, actions: seq<Action>, a: Action)
    ensures RunFrom(s, actions + [a]) ==
              match RunFrom(s, actions)
              case None => None
              case Some(t) => if Enabled(t, a) then Some(After(t, a)) else None
  {
    assert (actions + [a])[..|actions|] == actions;
  }

  predicate MayGiveUp(c: Caller) {
    c.AwaitsGlobal? || c.AwaitsLanguage? || c.GaveUp?
  }

  /** The state as if caller `i` had given up on arrival. */
  function WithoutCaller(s: State, i: nat): State
    requires i < |s.callers|
  {
    var held := HoldsGlobal()(s.callers[i]);
    s.(used := if s.used >= held then s.used - held else 0, callers := s.callers[i := GaveUp])
  }

  lemma OthersCount(s: State, i: nat, j: nat)
    requires Inv(s) && i < |s.callers| && j < |s.callers| && i != j
    ensures s.used >= HoldsGlobal()(s.callers[i]) + HoldsGlobal()(s.callers[j])
  {
    SumIncludesTwo(HoldsGlobal(), s.callers, if i < j then i else j, if i < j then j else i);
  }

  lemma OwnStep(s: State, a: Action, i: nat)
    requires Inv(s) && Enabled(s, a) && i < |s.callers| && By(i, a) && MayGiveUp(After(s, a).callers[i])
    ensures MayGiveUp(s.callers[i]) && WithoutCaller(After(s, a), i) == WithoutCaller(s, i)
  {
    SumIncludes(HoldsGlobal(), s.callers, i);
  }

  /** What another caller can do, it can do without caller `i` too. */
  lemma OthersEnabled(s: State, a: Action, i: nat)
    requires Inv(s) && Enabled(s, a) && i < |s.callers| && !By(i, a)
    ensures Enabled(WithoutCaller(s, i), a)
  {
    if !a.Arrive? {
      OthersCount(s, i, a.i);
    }
  }

  lemma OthersStep(s: State, a: Action, i: nat)
    requires Inv(s) && Enabled(s, a) && i < |s.callers| && !By(i, a) && Enabled(WithoutCaller(s, i), a)
    ensures After(s, a).callers[i] == s.callers[i] && After(WithoutCaller(s, i), a) == WithoutCaller(After(s, a), i)
  {
    SumIncludes(HoldsGlobal(), s.callers, i);
    if !a.Arrive? {
      OthersCount(s, i, a.i);
      var c := After(s, a).callers[a.i];
      assert After(s, a).callers == s.callers[a.i := c];
      assert s.callers[a.i := c][i := GaveUp] == s.callers[i := GaveUp][a.i := c];
    }
  }

  lemma ShadowStep(s: State, a: Action, i: nat, start: State, before: seq<Action>)
    requires Inv(s) && Enabled(s, a) && i < |s.callers| && i < |After(s, a).callers| && MayGiveUp(After(s, a).callers[i])
    requires MayGiveUp(s.callers[i]) ==> RunFrom(start, Filter(ByOthers(i), before)) == Some(WithoutCaller(s, i))
    ensures RunFrom(start, Filter(ByOthers(i), before + [a])) == Some(WithoutCaller(After(s, a), i))
  {
    FilterOneMore(ByOthers(i), before, a);
    if By(i, a) {
      OwnStep(s, a, i);
    } else {
      OthersEnabled(s, a, i);
      OthersStep(s, a, i);
      RunOneMore(start, Filter(ByOthers(i), before), a);
    }
  }

  lemma {:induction false} ShadowRun(trace: seq<State>, actions: seq<Action>, m: nat, n: nat, i: nat)
    requires Run(trace, actions) && m <= n < |trace| && i < |trace[m].callers| && trace[m].callers[i].AwaitsGlobal?
    ensures i < |trace[n].callers|
    ensures MayGiveUp(trace[n].callers[i]) ==>
              RunFrom(WithoutCaller(trace[m], i), Filter(ByOthers(i), actions[m..n])) == Some(WithoutCaller(trace[n], i))
  {
    if m < n {
      ShadowRun(trace, actions, m, n - 1, i);
      RunKeeps(trace, actions, n - 1);
      assert actions[m..n] == actions[m..n - 1] + [actions[n - 1]];
      if MayGiveUp(trace[n].callers[i]) {
        ShadowStep(trace[n - 1], actions[n - 1], i, WithoutCaller(trace[m], i), actions[m..n - 1]);
      }
    }
  }

  /** Giving up before the global slot, or having given up, is all there is to leaving out. */
  lemma WithoutIdle(s: State, i: nat)
    requires i < |s.callers|
    ensures s.callers[i].AwaitsGlobal? ==> WithoutCaller(s, i) == After(s, CancelBefore(i))
    ensures s.callers[i].GaveUp? ==> WithoutCaller(s, i) == s
  {
    assert s.callers[i].GaveUp? ==> s.callers[i := GaveUp] == s.callers;
  }

  /**
   * Whatever the others do meanwhile, a caller that gives up leaves the state it would have left by
   * giving up on arrival: the others' steps alone lead there.
   */
  lemma CancelLeavesNoTrace(trace: seq<State>, actions: seq<Action>, m: nat, n: nat, i: nat)
    requires Run(trace, actions) && m <= n < |trace| && i < |trace[m].callers| && trace[m].callers[i].AwaitsGlobal?
    requires i < |trace[n].callers| && trace[n].callers[i].GaveUp?
    ensures RunFrom(After(trace[m], CancelBefore(i)), Filter(ByOthers(i), actions[m..n])) == Some(trace[n])
  {
    ShadowRun(trace, actions, m, n, i);
    WithoutIdle(trace[m], i);
    WithoutIdle(trace[n], i);
  }

  // ----- the limiter as an object -----

  /** The function Acquire returns. */
  class ReleaseFunction {
    const limiter: JudgeAgentSlotLimiter
    const slot: Option<string>
    var released: bool

    constructor (limiter: JudgeAgentSlotLimiter, slot: Option<string>)
      ensures this.limiter == limiter && this.slot == slot && !released
    {
      this.limiter, this.slot, released := limiter, slot, false;
    }

    /** The first call gives the slots back; any other changes nothing. */
    method Call()
      requires !released ==> limiter.used > 0
      requires !released && slot.Some? ==> Limited(limiter.languages, slot.value) && UsedOf(limiter.languages, slot.value) > 0
      modifies this, limiter
      ensures released
      ensures old(released) ==> limiter.used == old(limiter.used) && limiter.languages == old(limiter.languages)
      ensures !old(released) ==>
                && limiter.used == old(limiter.used) - 1
                && limiter.languages == match slot
                                        case None => old(limiter.languages)
                                        case Some(key) => Changed(old(limiter.languages), key, UsedOf(old(limiter.languages), key) - 1)
    {
      if released {
        return;
      }
      released := true;
      if slot.Some? {
        limiter.languages := Changed(limiter.languages, slot.value, UsedOf(limiter.languages, slot.value) - 1);
      }
      limiter.used := limiter.used - 1;
    }
  }

  /** normalizeJudgeAgentLanguageKey. */
  function Normalized(lower: string -> string, language: string): string {
    lower(TrimSpace(language))
  }

  /** Outer white space does not matter. */
  lemma NormalizedIs(lower: string -> string, language: string) returns (from: nat, to: nat)
    ensures from <= to <= |language| && Normalized(lower, language) == lower(language[from..to])
    ensures AllSpace(language[..from]) && AllSpace(language[to..])
    ensures from < to ==> !IsSpace(language[from]) && !IsSpace(language[to - 1])
  {
    from, to := TrimSpaceMeaning(language);
  }

  ghost predicate LastAt(lower: string -> string, limits: seq<(string, int)>, n: nat, c: Channel, m: nat)
    requires n <= |limits|
  {
    && m < n && limits[m].1 == c.capacity && Normalized(lower, limits[m].0) == c.key
    && forall l | m < l < n && limits[l].1 > 0 :: Normalized(lower, limits[l].0) != c.key
  }

  /** A channel has the limit of the last of the first `n` entries for its language. */
  ghost predicate LastLimit(lower: string -> string, limits: seq<(string, int)>, n: nat, c: Channel)
    requires n <= |limits|
  {
    exists m: nat :: LastAt(lower, limits, n, c, m)
  }

  ghost predicate LastLimits(lower: string -> string, limits: seq<(string, int)>, n: nat, channels: seq<Channel>)
    requires n <= |limits|
  {
    forall k | 0 <= k < |channels| :: channels[k].key != "" && LastLimit(lower, limits, n, channels[k])
  }

  lemma StillLast(lower: string -> string, limits: seq<(string, int)>, n: nat, c: Channel)
    requires n < |limits| && LastLimit(lower, limits, n, c) && (limits[n].1 <= 0 || Normalized(lower, limits[n].0) != c.key)
    ensures LastLimit(lower, limits, n + 1, c)
  {
    var m: nat :| LastAt(lower, limits, n, c, m);
    assert LastAt(lower, limits, n + 1, c, m);
  }

  lemma LimitSkipped(lower: string -> string, limits: seq<(string, int)>, n: nat, channels: seq<Channel>)
    requires n < |limits| && LastLimits(lower, limits, n, channels)
    requires limits[n].1 <= 0 || Normalized(lower, limits[n].0) == ""
    ensures LastLimits(lower, limits, n + 1, channels)
  {
    forall k | 0 <= k < |channels| ensures LastLimit(lower, limits, n + 1, channels[k]) {
      StillLast(lower, limits, n, channels[k]);
    }
  }

  lemma LimitSet(lower: string -> string, limits: seq<(string, int)>, n: nat, channels: seq<Channel>, key: string)
    requires n < |limits| && LastLimits(lower, limits, n, channels)
    requires limits[n].1 > 0 && Normalized(lower, limits[n].0) == key && key != ""
    requires forall j, k | 0 <= j < k < |channels| :: channels[j].key != channels[k].key
    ensures LastLimits(lower, limits, n + 1, WithChannel(channels, key, limits[n].1))
  {
    var r := WithChannel(channels, key, limits[n].1);
    forall k | 0 <= k < |r| ensures r[k].key != "" && LastLimit(lower, limits, n + 1, r[k]) {
      if r[k].key != key {
        StillLast(lower, limits, n, r[k]);
      } else {
        assert LastAt(lower, limits, n + 1, r[k], n);
      }
    }
  }

  class JudgeAgentSlotLimiter {
    const capacity: nat
    var used: nat
    var languages: seq<Channel>

    /** A later entry for the same normalized language replaces an earlier one. */
    constructor (lower: string -> string, slots: int, limits: seq<(string, int)>)
      ensures used == 0 && capacity == if slots <= 0 then 1 else slots
      ensures Initial(State(capacity, used, languages, []))
      ensures forall key :: Limited(languages, key) <==>
                key != "" && exists n :: 0 <= n < |limits| && limits[n].1 > 0 && Normalized(lower, limits[n].0) == key
      ensures LastLimits(lower, limits, |limits|, languages)
    {
      capacity := if slots <= 0 then 1 else slots;
      used := 0;
      var channels: seq<Channel> := [];
      for n := 0 to |limits|
        invariant forall k | 0 <= k < |channels| :: channels[k].used == 0 && channels[k].capacity > 0
        invariant forall j, k | 0 <= j < k < |channels| :: channels[j].key != channels[k].key
        invariant forall key :: Limited(channels, key) <==>
                    key != "" && exists m :: 0 <= m < n && limits[m].1 > 0 && Normalized(lower, limits[m].0) == key
        invariant LastLimits(lower, limits, n, channels)
      {
        var key := Normalized(lower, limits[n].0);
        if key == "" || limits[n].1 <= 0 {
          LimitSkipped(lower, limits, n, channels);
          continue;
        }
        LimitSet(lower, limits, n, channels, key);
        channels := WithChannel(channels, key, limits[n].1);
      }
      languages := channels;
    }

    /** A cancelled call leaves every count as it was; otherwise the caller holds what it is told. */
    method Acquire(lower: string -> string, language: string, canceledBefore: bool, canceledAfter: bool) returns (r: Option<ReleaseFunction>)
      requires used >= capacity ==> canceledBefore
      requires Limited(languages, Normalized(lower, language)) && !Room(languages, Normalized(lower, language)) ==> canceledAfter
      modifies this
      ensures r.None? ==> used == old(used) && languages == old(languages)
      ensures r.None? <==> canceledBefore || (canceledAfter && Limited(old(languages), Normalized(lower, language)))
      ensures r.Some? ==>
                && fresh(r.value) && r.value.limiter == this && !r.value.released
                && used == old(used) + 1 <= capacity
                && var key := Normalized(lower, language);
                   if Limited(old(languages), key)
                   then r.value.slot == Some(key) && languages == Changed(old(languages), key, UsedOf(old(languages), key) + 1)
                   else r.value.slot == None && languages == old(languages)
    {
      if canceledBefore {
        return None;
      }
      used := used + 1;
      var key := Normalized(lower, language);
      if !Limited(languages, key) {
        var f := new ReleaseFunction(this, None);
        return Some(f);
      }
      if canceledAfter {
        used := used - 1;
        return None;
      }
      languages := Changed(languages, key, UsedOf(languages, key) + 1);
      var f := new ReleaseFunction(this, Some(key));
      return Some(f);
    }
  }

  /** A map entry set to a new channel. */
  function WithChannel(channels: seq<Channel>, key: string, capacity: nat): (r: seq<Channel>)
    ensures forall other :: Limited(r, other) <==> Limited(channels, other) || other == key
    ensures (forall j, k | 0 <= j < k < |channels| :: channels[j].key != channels[k].key) ==>
              forall j, k | 0 <= j < k < |r| :: r[j].key != r[k].key
    ensures forall k | 0 <= k < |r| :: r[k] == Channel(key, capacity, 0) || r[k] in channels
    ensures (forall j, k | 0 <= j < k < |channels| :: channels[j].key != channels[k].key) ==>
              forall k | 0 <= k < |r| && r[k].key == key :: r[k].capacity == capacity
  {
    if Limited(channels, key) then
      var r := channels[Index(channels, key) := Channel(key, capacity, 0)];
      KeysReplaced(channels, Index(channels, key), capacity);
      r
    else
      KeysAdded(channels, key, capacity);
      channels + [Channel(key, capacity, 0)]
  }

  lemma KeysReplaced(channels: seq<Channel>, n: nat, capacity: nat)
    requires n < |channels|
    ensures forall other :: Limited(channels[n := Channel(channels[n].key, capacity, 0)], other) <==> Limited(channels, other)
  {
    var r := channels[n := Channel(channels[n].key, capacity, 0)];
    forall other ensures Limited(r, other) <==> Limited(channels, other) {
      if k :| 0 <= k < |channels| && channels[k].key == other {
        assert r[k].key == other;
      }
      if k :| 0 <= k < |r| && r[k].key == other {
        assert channels[k].key == other;
      }
    }
  }

  lemma KeysAdded(channels: seq<Channel>, key: string, capacity: nat)
    ensures forall other :: Limited(channels + [Channel(key, capacity, 0)], other) <==> Limited(channels, other) || other == key
  {
    var r := channels + [Channel(key, capacity, 0)];
    forall other ensures Limited(r, other) <==> Limited(channels, other) || other == key {
      assert r[|channels|].key == key;
      if k :| 0 <= k < |channels| && channels[k].key == other {
        assert r[k].key == other;
      }
      if k :| 0 <= k < |r| && r[k].key == other {
        assert k < |channels| ==> channels[k].key == other;
      }
    }
  }
}
