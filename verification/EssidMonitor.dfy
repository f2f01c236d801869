/** The link monitor of wifi-radar (applications/3dsp-wifi-radar/wifi-radar): on every poll of the
    current ESSID it decides whether to kill a running wpa_supplicant. */
module EssidMonitor {
  import opened Options

  /** The four global counters. */
  datatype Counters = Counters(times: nat, value: nat, window: nat, noneTimes: nat)

  /** What can happen: a poll that finds the ESSID 'None' or something else, and the user's connect
      and disconnect buttons, which force the window to run out. */
  datatype Happening = Poll(isNone: bool) | Connect | Disconnect

  datatype Verdict = Verdict(c: Counters, flap: bool, silence: bool)

  /** The counters after the first part of check_essid_handler. */
  function Count(c: Counters, isNone: bool): Counters
  {
    if isNone then
      Counters(0,
               if 0 < c.times <= 10 then c.value + 1 else if c.times > 10 then 0 else c.value,
               if c.times > 10 then 1 else c.window,
               if c.noneTimes > 0 then c.noneTimes + 1 else 0)
    else
      Counters(c.times + 1, if c.times == 0 then c.value + 1 else c.value, c.window, 1)
  }

  function RollWindow(c: Counters): Counters
  {
    if c.window + 1 > 39 then Counters(0, 0, 0, c.noneTimes) else c.(window := c.window + 1)
  }

  /** flap and silence are the two reasons to kill. */
  function Verdicts(r: Counters): Verdict
  {
    var flap, silence := r.value > 5, r.noneTimes > 10;
    var s := if flap then Counters(0, 0, 0, r.noneTimes) else r;
    Verdict(if silence then s.(noneTimes := 0) else s, flap, silence)
  }

  /** check_essid_handler as a function. */
  function Check(c: Counters, isNone: bool): Verdict { Verdicts(RollWindow(Count(c, isNone))) }

  class EssidMonitor {
    var checkTimes: nat
    var checkValue: nat
    var checkWindow: nat
    var checkNoneTimes: nat
    /** What has happened since the program was configured. */
    ghost var history: seq<Happening>

    function Now(): Counters
      reads this
    {
      Counters(checkTimes, checkValue, checkWindow, checkNoneTimes)
    }

    ghost predicate Valid()
      reads this
    {
      Now() == After(history)
    }

    /** configure() and the module's initial assignment. */
    constructor ()
      ensures Valid() && history == []
    {
      checkTimes, checkValue, checkWindow, checkNoneTimes := 0, 0, 0, 0;
      history := [];
    }

    /** check_essid_handler: the counters follow the history, and the supplicant is killed for
        flapping or for silence. */
    method CheckEssid(isNone: bool) returns (kill: bool)
      requires Valid()
      modifies this
      ensures Valid() && history == old(history) + [Poll(isNone)]
      ensures kill == (FlapKill(history) || SilenceKill(history))
      ensures kill == (Flaps(WindowOf(old(history)), isNone) || (isNone && Silent(history) == Some(10)))
    {
      CountPoll(isNone);
      kill := Judge();
      Polled(history, isNone);
      KillsAre(history, isNone);
      history := history + [Poll(isNone)];
    }

    /** The first part of check_essid_handler: the poll is counted. */
    method CountPoll(isNone: bool)
      modifies this
      ensures Now() == Count(old(Now()), isNone) && history == old(history)
    {
      if isNone {
        if checkTimes > 0 {
          if checkTimes > 10 {
            checkValue := 0;
            checkWindow := 1;
          } else {
            checkValue := checkValue + 1;
          }
        }
        checkTimes := 0;
        if checkNoneTimes > 0 {
          checkNoneTimes := checkNoneTimes + 1;
        }
      } else {
        checkNoneTimes := 1;
        if checkTimes == 0 {
          checkValue := checkValue + 1;
        }
        checkTimes := checkTimes + 1;
      }
    }

    /** The second part: the window moves on, and the counters are judged. */
    method Judge() returns (kill: bool)
      modifies this
      ensures var v := Verdicts(RollWindow(old(Now())));
              Now() == v.c && kill == (v.flap || v.silence) && history == old(history)
    {
      kill := false;
      checkWindow := checkWindow + 1;
      if checkWindow > 39 {
        checkTimes, checkValue, checkWindow := 0, 0, 0;
      }
      if checkValue > 5 {
        kill := true;
        checkTimes, checkValue, checkWindow := 0, 0, 0;
      }
      if checkNoneTimes > 10 {
        kill := true;
        checkNoneTimes := 0;
      }
    }

    /** connect_profile, as far as the counters go: the window runs out at the next poll. */
    method ConnectProfile()
      requires Valid()
      modifies this
      ensures Valid() && history == old(history) + [Connect]
      ensures !Check(Now(), true).flap && !Check(Now(), false).flap
    {
      checkWindow := 40;
      assert (history + [Connect])[..|history|] == history;
      history := history + [Connect];
    }

    /** disconnect_profile, as far as the counters go: the next poll kills nothing, and the count
        of silent polls starts anew. */
    method DisconnectProfile()
      requires Valid()
      modifies this
      ensures Valid() && history == old(history) + [Disconnect] && Silent(history) == None
      ensures forall isNone :: !Check(Now(), isNone).flap && !Check(Now(), isNone).silence
    {
      checkWindow := 40;
      checkNoneTimes := 0;
      assert (history + [Disconnect])[..|history|] == history;
      history := history + [Disconnect];
    }
  }

  // ---------- histories ----------

  function Happen(c: Counters, h: Happening): Counters
  {
    match h
    case Poll(isNone) => Check(c, isNone).c
    case Connect => c.(window := 40)
    case Disconnect => c.(window := 40, noneTimes := 0)
  }

  function After(h: seq<Happening>): Counters
  {
    if h == [] then Counters(0, 0, 0, 0) else Happen(After(h[..|h| - 1]), h[|h| - 1])
  }

  /** What the poll at the end of the history decided. */
  function LastVerdict(h: seq<Happening>): Verdict
    requires h != [] && h[|h| - 1].Poll?
  {
    Check(After(h[..|h| - 1]), h[|h| - 1].isNone)
  }

  predicate FlapKill(h: seq<Happening>) { h != [] && h[|h| - 1].Poll? && LastVerdict(h).flap }

  predicate SilenceKill(h: seq<Happening>) { h != [] && h[|h| - 1].Poll? && LastVerdict(h).silence }

  /** The polls of a history, true where the ESSID was 'None'. */
  function Polls(h: seq<Happening>): (p: seq<bool>)
    ensures |p| <= |h|
  {
    if h == [] then []
    else
      var last := h[|h| - 1];
      if last.Poll? then Polls(h[..|h| - 1]) + [last.isNone] else Polls(h[..|h| - 1])
  }

  /** The number of places in p[from..] where the link changed between connected and 'None'. */
  function Changes(p: seq<bool>, from: nat): nat
    requires from <= |p|
    decreases |p|
  {
    if |p| <= from + 1 then 0
    else (if p[|p| - 1] != p[|p| - 2] then 1 else 0) + Changes(p[..|p| - 1], from)
  }

  function Last<T>(p: seq<T>): T
    requires p != []
  {
    p[|p| - 1]
  }

  lemma Polled(h: seq<Happening>, isNone: bool)
    ensures var v := Check(After(h), isNone);
            var h' := h + [Poll(isNone)];
            After(h') == v.c && FlapKill(h') == v.flap && SilenceKill(h') == v.silence
  {
    assert (h + [Poll(isNone)])[..|h|] == h;
  }

  // ---------- flapping ----------

  /** While the window runs, everything counted in check_value happened in its polls, and all but
      perhaps the first of these counts were real changes. */
  ghost predicate Counted(c: Counters, p: seq<bool>)
  {
    && c.window <= 40 && c.times <= |p| && c.times <= 39
    && (c.times > 0 ==> p != [] && !Last(p))
    && (c.window <= 39 ==>
          && c.window <= |p| && c.times <= c.window
          && (c.value > 0 && c.times == 0 ==> p != [] && Last(p))
          && (c.value > 0 ==> c.window > 0 && c.value <= 1 + Changes(p, |p| - c.window)))
  }

  ghost predicate Flapping(c: Counters, p: seq<bool>)
  {
    c.value <= 5 && c.noneTimes <= 10 && Counted(c, p)
  }

  lemma ChangesStep(p: seq<bool>, isNone: bool, from: nat)
    requires from <= |p|
    ensures Changes(p + [isNone], from) ==
              (if from == |p| then 0 else (if isNone != Last(p) then 1 else 0) + Changes(p, from))
  {
    assert (p + [isNone])[..|p|] == p;
  }

  lemma OneCount(c: Counters, p: seq<bool>, isNone: bool)
    requires Counted(c, p)
    ensures Counted(RollWindow(Count(c, isNone)), p + [isNone])
  {
    assert Last(p + [isNone]) == isNone;
    if c.window <= 39 { ChangesStep(p, isNone, |p| - c.window); }
  }

  /** More than five counts in a window are at least five changes in the last 39 polls. */
  lemma CountedChanges(c: Counters, p: seq<bool>)
    requires Counted(c, p) && c.window <= 39 && c.value > 5
    ensures Changes(p, if |p| > 39 then |p| - 39 else 0) >= 5
  {
    ChangesMonotone(p, |p| - c.window, if |p| > 39 then |p| - 39 else 0);
  }

  lemma OnePoll(c: Counters, p: seq<bool>, isNone: bool)
    requires Flapping(c, p)
    ensures Flapping(Check(c, isNone).c, p + [isNone])
    ensures Check(c, isNone).flap ==> Changes(p + [isNone], if |p| + 1 > 39 then |p| + 1 - 39 else 0) >= 5
  {
    OneCount(c, p, isNone);
    var r := RollWindow(Count(c, isNone));
    if r.value > 5 { CountedChanges(r, p + [isNone]); }
  }

  lemma {:induction false} ChangesMonotone(p: seq<bool>, from: nat, earlier: nat)
    requires earlier <= from <= |p|
    ensures Changes(p, from) <= Changes(p, earlier)
    decreases |p|
  {
    if |p| > from + 1 { ChangesMonotone(p[..|p| - 1], from, earlier); }
  }

  /** The counters stay within these bounds after every history. */
  lemma {:induction false} CountersBounded(h: seq<Happening>)
    ensures Flapping(After(h), Polls(h))
    ensures var c := After(h); c.times <= 39 && c.value <= 5 && c.window <= 40 && c.noneTimes <= 10
  {
    if h != [] {
      CountersBounded(h[..|h| - 1]);
      if h[|h| - 1].Poll? { OnePoll(After(h[..|h| - 1]), Polls(h[..|h| - 1]), h[|h| - 1].isNone); }
    }
  }

  /** A kill for flapping is justified: among the last 39 polls the link really changed between
      connected and 'None' at least five times. */
  lemma FlapKillJustified(h: seq<Happening>)
    requires FlapKill(h)
    ensures var p := Polls(h); Changes(p, if |p| > 39 then |p| - 39 else 0) >= 5
  {
    CountersBounded(h[..|h| - 1]);
    OnePoll(After(h[..|h| - 1]), Polls(h[..|h| - 1]), h[|h| - 1].isNone);
  }

  // ---------- exactly when a flapping link is noticed ----------

  /** The polls of the window that is running, and whether the user has forced it to run out. */
  datatype Window = Window(polls: seq<bool>, spent: bool)

  /** The number of connected polls at the end of p. */
  function Lasting(p: seq<bool>): nat
  {
    if p == [] || Last(p) then 0 else 1 + Lasting(p[..|p| - 1])
  }

  /** The ups and downs in p, counting from a link that is down. */
  function Swings(p: seq<bool>): nat
  {
    if p == [] then 0
    else
      var wasNone := |p| == 1 || p[|p| - 2];
      Swings(p[..|p| - 1]) + if Last(p) != wasNone then 1 else 0
  }

  /** The end of a connection of more than ten polls. */
  predicate LongConnectionEnds(w: Window, isNone: bool) { isNone && Lasting(w.polls) > 10 }

  predicate RunsOut(w: Window) { w.spent || |w.polls| == 39 }

  /** More than five ups and downs inside one window. */
  predicate Flaps(w: Window, isNone: bool)
  {
    !LongConnectionEnds(w, isNone) && !RunsOut(w) && Swings(w.polls + [isNone]) > 5
  }

  /** The window that is running after a history. It lasts 39 polls; the poll that finds it run out,
      or that ends in a kill, belongs to no window. The end of a long connection starts a new
      window in which the link has been down for two polls. */
  function WindowOf(h: seq<Happening>): Window
  {
    if h == [] then Window([], false)
    else
      var w := WindowOf(h[..|h| - 1]);
      match h[|h| - 1]
      case Poll(isNone) =>
        if LongConnectionEnds(w, isNone) then Window([true, true], false)
        else if RunsOut(w) || Flaps(w, isNone) then Window([], false)
        else Window(w.polls + [isNone], false)
      case _ => w.(spent := true)
  }

  /** The counters are the summary of the window. */
  ghost predicate Summary(c: Counters, w: Window)
  {
    && |w.polls| <= 39
    && c.times == Lasting(w.polls) && c.value == Swings(w.polls) && c.window == if w.spent then 40 else |w.polls|
  }

  lemma OneMorePoll(p: seq<bool>, isNone: bool)
    ensures Lasting(p + [isNone]) == if isNone then 0 else Lasting(p) + 1
    ensures Swings(p + [isNone]) == Swings(p) + if isNone == (Lasting(p) > 0) then 1 else 0
  {
    assert (p + [isNone])[..|p|] == p;
  }

  lemma TwoNone()
    ensures Lasting([true, true]) == 0 && Swings([true, true]) == 0
  {
    OneMorePoll([], true);
    OneMorePoll([true], true);
    assert [] + [true] == [true] && [true] + [true] == [true, true];
  }

  lemma SummaryPoll(c: Counters, w: Window, isNone: bool)
    requires Summary(c, w)
    ensures Check(c, isNone).flap == Flaps(w, isNone)
    ensures Summary(Check(c, isNone).c,
                    if LongConnectionEnds(w, isNone) then Window([true, true], false)
                    else if RunsOut(w) || Flaps(w, isNone) then Window([], false)
                    else Window(w.polls + [isNone], false))
  {
    OneMorePoll(w.polls, isNone);
    TwoNone();
  }

  lemma {:induction false} SummaryHolds(h: seq<Happening>)
    ensures Summary(After(h), WindowOf(h))
  {
    if h != [] {
      var front := h[..|h| - 1];
      SummaryHolds(front);
      if h[|h| - 1].Poll? { SummaryPoll(After(front), WindowOf(front), h[|h| - 1].isNone); }
    }
  }

  /** A kill for flapping comes exactly when the link has gone up or down more than five times in
      the window that is running. */
  lemma FlapKillExactly(h: seq<Happening>)
    requires h != [] && h[|h| - 1].Poll?
    ensures FlapKill(h) <==> Flaps(WindowOf(h[..|h| - 1]), h[|h| - 1].isNone)
  {
    SummaryHolds(h[..|h| - 1]);
    SummaryPoll(After(h[..|h| - 1]), WindowOf(h[..|h| - 1]), h[|h| - 1].isNone);
  }

  function AsPolls(p: seq<bool>): seq<Happening>
  {
    if p == [] then [] else AsPolls(p[..|p| - 1]) + [Poll(Last(p))]
  }

  /** No connection of more than ten polls ends in p. */
  ghost predicate NoLongConnection(p: seq<bool>) { forall k :: 0 <= k < |p| && p[k] ==> Lasting(p[..k]) <= 10 }

  lemma NoneInFront(p: seq<bool>)
    requires p != [] && NoLongConnection(p)
    ensures NoLongConnection(p[..|p| - 1]) && (Last(p) ==> Lasting(p[..|p| - 1]) <= 10)
  {
    var front := p[..|p| - 1];
    forall k | 0 <= k < |front| && front[k] ensures Lasting(front[..k]) <= 10 {
      assert front[..k] == p[..k] && p[k];
    }
  }

  lemma LastPoll(h: seq<Happening>, p: seq<bool>)
    requires p != []
    ensures var all := h + AsPolls(p);
            all != [] && all[..|all| - 1] == h + AsPolls(p[..|p| - 1]) && all[|all| - 1] == Poll(Last(p))
  {
  }

  lemma SwingsGrow(p: seq<bool>)
    requires p != []
    ensures Swings(p[..|p| - 1]) <= Swings(p)
  {
  }

  lemma WindowStep(all: seq<Happening>, front: seq<bool>, isNone: bool)
    requires all != [] && all[|all| - 1] == Poll(isNone) && WindowOf(all[..|all| - 1]) == Window(front, false)
    requires |front| < 39 && (isNone ==> Lasting(front) <= 10) && Swings(front + [isNone]) <= 5
    ensures WindowOf(all) == Window(front + [isNone], false)
  {
  }

  lemma {:induction false} WindowGrows(h: seq<Happening>, p: seq<bool>)
    requires WindowOf(h) == Window([], false) && |p| <= 39 && Swings(p) <= 5 && NoLongConnection(p)
    ensures WindowOf(h + AsPolls(p)) == Window(p, false)
    decreases |p|
  {
    if p == [] {
      assert h + AsPolls(p) == h;
    } else {
      var front := p[..|p| - 1];
      NoneInFront(p);
      SwingsGrow(p);
      WindowGrows(h, front);
      LastPoll(h, p);
      assert front + [Last(p)] == p;
      WindowStep(h + AsPolls(p), front, Last(p));
    }
  }

  /** Polls that follow a fresh window, fit in it, hold no connection of more than ten polls that ends, and have
      not led to a kill yet: the next poll leads to one if and only if there are then more than
      five ups and downs. */
  lemma FlappingIsNoticed(h: seq<Happening>, p: seq<bool>, isNone: bool)
    requires WindowOf(h) == Window([], false) && |p| < 39 && Swings(p) <= 5 && NoLongConnection(p)
    requires isNone ==> Lasting(p) <= 10
    ensures FlapKill(h + AsPolls(p) + [Poll(isNone)]) <==> Swings(p + [isNone]) > 5
  {
    WindowGrows(h, p);
    KillsAre(h + AsPolls(p), isNone);
    InWindow(p, isNone);
  }

  lemma InWindow(front: seq<bool>, last: bool)
    requires |front| < 39 && (last ==> Lasting(front) <= 10)
    ensures Flaps(Window(front, false), last) <==> Swings(front + [last]) > 5
  {
  }

  /** n polls, up and down in turn. */
  function Alternating(n: nat): (p: seq<bool>)
    ensures |p| == n
  {
    if n == 0 then [] else Alternating(n - 1) + [n % 2 == 0]
  }

  lemma {:induction false} AlternatingSwings(n: nat)
    ensures Swings(Alternating(n)) == n && Lasting(Alternating(n)) == n % 2
  {
    if n > 0 {
      AlternatingSwings(n - 1);
      OneMorePoll(Alternating(n - 1), n % 2 == 0);
    }
  }

  lemma {:induction false} AlternatingPrefix(n: nat, k: nat)
    requires k <= n
    ensures Alternating(n)[..k] == Alternating(k)
  {
    if k < n {
      AlternatingPrefix(n - 1, k);
      assert Alternating(n)[..k] == Alternating(n - 1)[..k];
    }
  }

  /** A link that goes up and down in turn is noticed at its sixth poll, and not before. */
  lemma AlternatingIsNoticed(h: seq<Happening>, n: nat)
    requires WindowOf(h) == Window([], false) && n < 6
    ensures FlapKill(h + AsPolls(Alternating(n)) + [Poll(n % 2 == 1)]) <==> n == 5
  {
    AlternatingSwings(n);
    OneMorePoll(Alternating(n), n % 2 == 1);
    forall k | 0 <= k < n ensures Lasting(Alternating(n)[..k]) <= 10 {
      AlternatingPrefix(n, k);
      AlternatingSwings(k);
    }
    FlappingIsNoticed(h, Alternating(n), n % 2 == 1);
  }

  // ---------- silence ----------

  /** The number of 'None' polls since the last other poll, unless the user disconnected since or
      there was no such poll. */
  function Silent(h: seq<Happening>): Option<nat>
  {
    if h == [] then None
    else
      var before := Silent(h[..|h| - 1]);
      match h[|h| - 1]
      case Poll(isNone) => if !isNone then Some(0) else if before.Some? then Some(before.value + 1) else None
      case Connect => before
      case Disconnect => None
  }

  lemma {:induction false} NoneTimesIs(h: seq<Happening>)
    ensures After(h).noneTimes == match Silent(h) case None => 0 case Some(k) => if k < 10 then k + 1 else 0
  {
    if h != [] { NoneTimesIs(h[..|h| - 1]); }
  }

  /** A kill for silence comes exactly on the tenth 'None' poll in a row after another poll, if the
      user has not disconnected in between. */
  lemma SilenceKillExactly(h: seq<Happening>)
    requires h != [] && h[|h| - 1].Poll?
    ensures SilenceKill(h) <==> h[|h| - 1].isNone && Silent(h) == Some(10)
  {
    NoneTimesIs(h[..|h| - 1]);
  }

  lemma KillsAre(h: seq<Happening>, isNone: bool)
    ensures var h' := h + [Poll(isNone)];
            && FlapKill(h') == Flaps(WindowOf(h), isNone)
            && SilenceKill(h') == (isNone && Silent(h') == Some(10))
  {
    var h' := h + [Poll(isNone)];
    assert h'[..|h'| - 1] == h;
    FlapKillExactly(h');
    SilenceKillExactly(h');
  }

  /** Silent, read off the history: position j is the last poll that was not 'None'. */
  lemma {:induction false} SilentMeans(h: seq<Happening>, j: nat)
    requires j < |h| && h[j] == Poll(false)
    requires forall i :: j < i < |h| ==> h[i] != Poll(false)
    ensures Silent(h) == if exists i :: j < i < |h| && h[i] == Disconnect then None
                         else Some(|Polls(h)| - |Polls(h[..j + 1])|)
  {
    if j == |h| - 1 {
      assert h[..j + 1] == h;
    } else {
      var init := h[..|h| - 1];
      SilentMeans(init, j);
      assert init[..j + 1] == h[..j + 1];
      assert h[|h| - 1] == Disconnect || ((exists i :: j < i < |h| && h[i] == Disconnect)
                                          <==> (exists i :: j < i < |init| && init[i] == Disconnect)) by {
        if h[|h| - 1] != Disconnect && exists i :: j < i < |h| && h[i] == Disconnect {
          var i :| j < i < |h| && h[i] == Disconnect;
          assert init[i] == Disconnect;
        }
      }
    }
  }

  lemma {:induction false} SilentOnly(h: seq<Happening>, more: seq<Happening>)
    requires forall i :: 0 <= i < |more| ==> more[i] != Poll(false)
    ensures Silent(h + more) == None
            || (Silent(h).Some? && Silent(h + more).value == Silent(h).value + |Polls(more)|)
  {
    if more == [] {
      assert h + more == h;
    } else {
      assert (h + more)[..|h + more| - 1] == h + more[..|more| - 1];
      SilentOnly(h, more[..|more| - 1]);
    }
  }

  /** After a kill for silence there is no second one before the link has been seen up again. */
  lemma SilenceDoesNotRecur(h: seq<Happening>, more: seq<Happening>)
    requires more != [] && SilenceKill(h) && SilenceKill(h + more)
    ensures exists i :: 0 <= i < |more| && more[i] == Poll(false)
  {
    SilenceKillExactly(h);
    SilenceKillExactly(h + more);
    assert more[|more| - 1] == (h + more)[|h + more| - 1];
    assert |Polls(more)| > 0;
    if forall i :: 0 <= i < |more| ==> more[i] != Poll(false) { SilentOnly(h, more); }
  }
}
