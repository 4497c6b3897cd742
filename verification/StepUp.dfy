/**
 Step-up verification in a login session (controller/secure_verification.go; PasskeyVerifyFinish
 and requireSecureVerificationMethod of controller/passkey.go). Times are the clock readings each
 handler makes; whether a code is right and whether the session store saves are parameters. A
 session that is not saved stays as it was.
 */
module StepUp {
  import opened Options

  datatype Method = TwoFactor | Passkey

  const READY_TIMEOUT := 60
  const VERIFIED_TIMEOUT := 300

  /** The three session keys. */
  datatype Keys = Keys(readyAt: Option<int>, verifiedAt: Option<int>, how: Option<Method>)

  const Empty := Keys(None, None, None)

  datatype Event =
    | Finish(at: int, saved: bool)                                          // a passkey assertion checked out
    | VerifyCode(right: bool, at: int, saved: bool)                         // POST /api/verify, 2fa
    | VerifyPasskey(at: int, recordedAt: int, consumed: bool, saved: bool)  // POST /api/verify, passkey
    | Check(need: Method, at: int, saved: bool)                             // a gated operation
    | Logout

  // ---------------------------------------------------------------- steps

  function Verified(at: int, how: Method): Keys { Keys(None, Some(at), Some(how)) }

  predicate MarkerGood(k: Keys, at: int) { k.readyAt.Some? && at - k.readyAt.value < READY_TIMEOUT }

  predicate Expired(k: Keys, at: int) { k.verifiedAt.None? || at - k.verifiedAt.value >= VERIFIED_TIMEOUT }

  /** requireSecureVerificationMethod lets the request through. */
  predicate Allows(k: Keys, need: Method, at: int) { !Expired(k, at) && k.how == Some(need) }

  /** The passkey branch consumes the marker first, then looks at its age. */
  function PasskeyStep(k: Keys, at: int, recordedAt: int, consumed: bool, saved: bool): Keys {
    if k.readyAt.None? || !consumed then k
    else if !MarkerGood(k, at) || !saved then k.(readyAt := None)
    else Verified(recordedAt, Passkey)
  }

  function Step(k: Keys, e: Event): Keys {
    match e
    case Finish(at, saved) => if saved then Keys(Some(at), None, None) else k
    case VerifyCode(right, at, saved) => if right && saved then Verified(at, TwoFactor) else k
    case VerifyPasskey(at, recordedAt, consumed, saved) => PasskeyStep(k, at, recordedAt, consumed, saved)
    case Check(need, at, saved) => if Expired(k, at) && saved then k.(verifiedAt := None, how := None) else k
    case Logout => Empty
  }

  function Run(events: seq<Event>): Keys {
    if events == [] then Empty else Step(Run(events[..|events| - 1]), events[|events| - 1])
  }

  // ---------------------------------------------------------------- what backs a verification

  predicate Sets(e: Event) { e.Finish? && e.saved }

  /** Event k recorded a passkey verification. */
  predicate Records(events: seq<Event>, k: nat)
    requires k < |events|
  {
    var e := events[k];
    e.VerifyPasskey? && e.consumed && e.saved && MarkerGood(Run(events[..k]), e.at)
  }

  /** The marker present before event k is the one that event j left, untouched since. */
  ghost predicate Marks(events: seq<Event>, j: nat, k: nat)
    requires k <= |events|
  {
    && j < k && Sets(events[j])
    && (forall i :: j < i < k ==> !Sets(events[i]))
    && (forall i :: j < i <= k ==> Run(events[..i]).readyAt == Some(events[j].at))
  }

  lemma {:induction false} MarkerHasSource(events: seq<Event>, k: nat)
    requires k <= |events| && Run(events[..k]).readyAt.Some?
    ensures exists j :: Marks(events, j, k)
    decreases k
  {
    if k > 0 {
      var last := events[k - 1];
      assert events[..k][..k - 1] == events[..k - 1];
      if Sets(last) {
        assert Marks(events, k - 1, k);
      } else {
        assert Run(events[..k]).readyAt == Run(events[..k - 1]).readyAt;
        MarkerHasSource(events, k - 1);
        var j: nat :| Marks(events, j, k - 1);
        assert Marks(events, j, k);
      }
    }
  }

  /** Event k takes the marker away: it is used up even if it turns out too old or the verification is
      then not saved. */
  predicate Consumes(e: Event) { e.VerifyPasskey? && e.consumed }

  /** Once an attempt has consumed a marker, a later one needs an assertion of its own. */
  lemma ConsumedForGood(events: seq<Event>, k1: nat, j2: nat, k2: nat)
    requires k1 < k2 <= |events| && Consumes(events[k1]) && Marks(events, j2, k2)
    ensures k1 < j2
  {
    assert events[..k1 + 1][..k1] == events[..k1];
    assert Run(events[..k1 + 1]).readyAt == None;
  }

  /** Two verifications never share a marker: between them lies a passkey assertion of its own. */
  lemma MarkersDiffer(events: seq<Event>, j1: nat, k1: nat, j2: nat, k2: nat)
    requires k1 < k2 < |events| && Records(events, k1) && Records(events, k2)
    requires Marks(events, j1, k1) && Marks(events, j2, k2)
    ensures j1 < k1 < j2 < k2
  {
    assert events[..k1 + 1][..k1] == events[..k1];
    assert Run(events[..k1 + 1]).readyAt == None;
  }

  // ---------------------------------------------------------------- what a check proves

  /** A verification by a code. */
  predicate RecordsCode(e: Event) { e.VerifyCode? && e.right && e.saved }

  ghost predicate RecordedBy(events: seq<Event>, k: nat, need: Method, at: int)
    requires k < |events|
  {
    if need == Passkey then Records(events, k) && events[k].recordedAt == at
    else RecordsCode(events[k]) && events[k].at == at
  }

  lemma {:induction false} VerifiedHasSource(events: seq<Event>, n: nat, need: Method)
    requires n <= |events| && Run(events[..n]).how == Some(need)
    ensures Run(events[..n]).verifiedAt.Some?
    ensures exists k :: 0 <= k < n && RecordedBy(events, k, need, Run(events[..n]).verifiedAt.value)
    decreases n
  {
    if n > 0 {
      assert events[..n][..n - 1] == events[..n - 1];
      var before, e := Run(events[..n - 1]), events[n - 1];
      if e.VerifyPasskey? && Records(events, n - 1) {
        assert RecordedBy(events, n - 1, Passkey, e.recordedAt);
      } else if RecordsCode(e) {
        assert RecordedBy(events, n - 1, TwoFactor, e.at);
      } else {
        assert Run(events[..n]).how == before.how && Run(events[..n]).verifiedAt == before.verifiedAt;
        VerifiedHasSource(events, n - 1, need);
      }
    }
  }

  /** Verification k is recent enough for a check at this time, and consumed a marker that was recent
      enough then. */
  ghost predicate Backed(events: seq<Event>, j: nat, k: nat, at: int) {
    && k < |events| && Records(events, k) && at - events[k].recordedAt < VERIFIED_TIMEOUT
    && Marks(events, j, k) && events[k].at - events[j].at < READY_TIMEOUT
  }

  /** In every session history a passkey-gated check lets a request through only if a passkey
      verification was recorded less than 300 seconds before, which consumed an assertion's marker
      less than 60 seconds old. */
  lemma PasskeyCheckBacked(events: seq<Event>, at: int)
    requires Allows(Run(events), Passkey, at)
    ensures exists j, k :: Backed(events, j, k, at)
  {
    assert events[..|events|] == events;
    VerifiedHasSource(events, |events|, Passkey);
    var k :| 0 <= k < |events| && RecordedBy(events, k, Passkey, Run(events).verifiedAt.value);
    MarkerHasSource(events, k);
    var j: nat :| Marks(events, j, k);
    assert Run(events[..k]).readyAt == Some(events[j].at);
    assert Backed(events, j, k, at);
  }

  /** A check for a code lets a request through only if a right code was given less than 300 seconds before. */
  lemma CodeCheckBacked(events: seq<Event>, at: int)
    requires Allows(Run(events), TwoFactor, at)
    ensures exists k :: 0 <= k < |events| && RecordsCode(events[k]) && at - events[k].at < VERIFIED_TIMEOUT
  {
    assert events[..|events|] == events;
    VerifiedHasSource(events, |events|, TwoFactor);
    var k :| 0 <= k < |events| && RecordedBy(events, k, TwoFactor, Run(events).verifiedAt.value);
  }

  /** After an assertion and a verification, whatever came before, a passkey check passes exactly
      within the two time limits. */
  lemma FlowPassesIff(events: seq<Event>, finish: int, verify: int, recorded: int, at: int)
    ensures var history := events + [Finish(finish, true), VerifyPasskey(verify, recorded, true, true)];
            Allows(Run(history), Passkey, at) <==> verify - finish < READY_TIMEOUT && at - recorded < VERIFIED_TIMEOUT
  {
    var first := events + [Finish(finish, true)];
    var history := events + [Finish(finish, true), VerifyPasskey(verify, recorded, true, true)];
    assert history[..|history| - 1] == first && first[..|first| - 1] == events;
  }

  /** A check that finds the verification 300 seconds old, or none, leaves none behind if that can be saved;
      no check touches anything else. */
  lemma CheckLeaves(k: Keys, need: Method, at: int, saved: bool)
    ensures var expired := k.verifiedAt.None? || at - k.verifiedAt.value >= 300;
            Step(k, Check(need, at, saved)) == if expired && saved then Keys(k.readyAt, None, None) else k
  {}

  /** After a right code, whatever came before, a check for a code passes exactly within 300 seconds, and
      one for a passkey does not. */
  lemma CodePassesIff(events: seq<Event>, given: int, at: int)
    ensures var history := events + [VerifyCode(true, given, true)];
            (Allows(Run(history), TwoFactor, at) <==> at - given < 300) && !Allows(Run(history), Passkey, at)
  {
    var history := events + [VerifyCode(true, given, true)];
    assert history[..|history| - 1] == events;
  }

  // ---------------------------------------------------------------- exactly when a check passes

  /** Event i ends a verification made at that time: a new assertion, another verification, a logout, or a
      check that finds it 300 seconds old. */
  predicate Ends(events: seq<Event>, i: nat, verifiedAt: int)
    requires i < |events|
  {
    match events[i]
    case Finish(_, saved) => saved
    case VerifyCode(right, _, saved) => right && saved
    case VerifyPasskey(_, _, _, _) => Records(events, i)
    case Check(_, at, saved) => saved && at - verifiedAt >= 300
    case Logout => true
  }

  /** The verification of event k stands until event n. */
  ghost predicate Stands(events: seq<Event>, k: nat, n: nat, need: Method, verifiedAt: int)
    requires n <= |events|
  {
    k < n && RecordedBy(events, k, need, verifiedAt) && forall i :: k < i < n ==> !Ends(events, i, verifiedAt)
  }

  lemma OneMore(events: seq<Event>, n: nat)
    requires n < |events|
    ensures Run(events[..n + 1]) == Step(Run(events[..n]), events[n])
  {
    assert events[..n + 1][..n] == events[..n];
  }

  lemma {:induction false} StandingVerifies(events: seq<Event>, k: nat, n: nat, need: Method, verifiedAt: int)
    requires n <= |events| && Stands(events, k, n, need, verifiedAt)
    ensures Run(events[..n]).verifiedAt == Some(verifiedAt) && Run(events[..n]).how == Some(need)
  {
    OneMore(events, n - 1);
    if k + 1 < n {
      StandingVerifies(events, k, n - 1, need, verifiedAt);
      assert !Ends(events, n - 1, verifiedAt);
    }
  }

  lemma {:induction false} VerifiedStands(events: seq<Event>, n: nat, need: Method)
    requires n <= |events| && Run(events[..n]).how == Some(need)
    ensures Run(events[..n]).verifiedAt.Some?
    ensures exists k :: Stands(events, k, n, need, Run(events[..n]).verifiedAt.value)
    decreases n
  {
    if n > 0 {
      OneMore(events, n - 1);
      var e := events[n - 1];
      if (e.VerifyPasskey? && Records(events, n - 1)) || RecordsCode(e) {
        assert Stands(events, n - 1, n, need, Run(events[..n]).verifiedAt.value);
      } else {
        VerifiedStands(events, n - 1, need);
        var verifiedAt := Run(events[..n - 1]).verifiedAt.value;
        var k: nat :| Stands(events, k, n - 1, need, verifiedAt);
        assert Stands(events, k, n, need, verifiedAt);
      }
    }
  }

  /** Over every session history a check lets a request through if and only if a verification by the
      method it asks for was recorded less than 300 seconds before and nothing has ended it since. */
  lemma AllowsIff(events: seq<Event>, need: Method, at: int)
    ensures Allows(Run(events), need, at) <==>
            exists k, verifiedAt :: Stands(events, k, |events|, need, verifiedAt) && at - verifiedAt < 300
  {
    assert events[..|events|] == events;
    if Allows(Run(events), need, at) { VerifiedStands(events, |events|, need); }
    if k, verifiedAt :| Stands(events, k, |events|, need, verifiedAt) && at - verifiedAt < 300 {
      StandingVerifies(events, k, |events|, need, verifiedAt);
    }
  }

  /** And a passkey verification is recorded if and only if both saves succeed and the marker it consumes
      was left by an assertion less than 60 seconds before. */
  lemma RecordsIff(events: seq<Event>, k: nat)
    requires k < |events|
    ensures Records(events, k) <==>
            && events[k].VerifyPasskey? && events[k].consumed && events[k].saved
            && exists j: nat :: Marks(events, j, k) && events[k].at - events[j].at < 60
  {
    if Run(events[..k]).readyAt.Some? { MarkerHasSource(events, k); }
    if j: nat :| Marks(events, j, k) { assert Run(events[..k]).readyAt == Some(events[j].at); }
  }

  // ---------------------------------------------------------------- in place

  class Session {
    var keys: Keys

    constructor ()
      ensures keys == Empty
    {
      keys := Empty;
    }

    method PasskeyVerifyFinish(at: int, saved: bool)
      modifies this
      ensures keys == Step(old(keys), Finish(at, saved))
    {
      var next := keys.(readyAt := Some(at));
      next := next.(verifiedAt := None);
      next := next.(how := None);
      if saved { keys := next; }
    }

    /** session.Delete, two session.Set, session.Save */
    method SetSecureVerification(at: int, how: Method, saved: bool) returns (ok: bool)
      modifies this
      ensures ok == saved && keys == if saved then Verified(at, how) else old(keys)
    {
      var next := keys.(readyAt := None);
      next := next.(verifiedAt := Some(at), how := Some(how));
      if saved { keys := next; }
      ok := saved;
    }

    method ConsumePasskeyReady(at: int, saved: bool) returns (ready: bool)
      modifies this
      ensures ready == (saved && MarkerGood(old(keys), at))
      ensures keys == if saved then old(keys).(readyAt := None) else old(keys)
    {
      if keys.readyAt.None? {
        return false;
      }
      var readyAt := keys.readyAt.value;
      if !saved {
        return false;
      }
      keys := keys.(readyAt := None);
      if at - readyAt >= READY_TIMEOUT {
        return false;
      }
      return true;
    }

    method VerifyByPasskey(at: int, recordedAt: int, consumed: bool, saved: bool) returns (ok: bool)
      modifies this
      ensures keys == Step(old(keys), VerifyPasskey(at, recordedAt, consumed, saved))
      ensures ok <==> consumed && saved && MarkerGood(old(keys), at)
    {
      ok := ConsumePasskeyReady(at, consumed);
      if ok {
        ok := SetSecureVerification(recordedAt, Passkey, saved);
      }
    }

    method VerifyByCode(right: bool, at: int, saved: bool) returns (ok: bool)
      modifies this
      ensures keys == Step(old(keys), VerifyCode(right, at, saved))
      ensures ok <==> right && saved
    {
      if !right {
        return false;
      }
      ok := SetSecureVerification(at, TwoFactor, saved);
    }

    method RequireSecureVerificationMethod(need: Method, at: int, saved: bool) returns (allowed: bool)
      modifies this
      ensures keys == Step(old(keys), Check(need, at, saved))
      ensures allowed <==> Allows(old(keys), need, at)
    {
      if keys.verifiedAt.None? || at - keys.verifiedAt.value >= VERIFIED_TIMEOUT {
        if saved { keys := keys.(verifiedAt := None, how := None); }
        return false;
      }
      return keys.how == Some(need);
    }
  }
}
