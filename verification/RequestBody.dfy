/**
 The body of one request (common/gin.go; CreateBodyStorage and CreateBodyStorageFromReader of
 common/body_storage.go): read once from the connection, kept in a storage, and served again
 from its start to whoever asks. Disk and connection failures, the cache settings and how far a
 decoder reads are parameters. The Kling and Jimeng adapters (middleware) put a rewritten body in
 its place, under the request and under the older of the two context keys.
 */
module RequestBody {
  import opened Options
  import opened BodyStorage

  datatype Stored = Stored(disk: bool, state: State)

  /** c.Request.Body: still to be read, http.NoBody, which reads as empty however often, read and
      closed, or replaced by the storage. */
  datatype Source = Live(rest: seq<bv8>) | NoBody | Spent | Replay

  datatype Failure = TooLarge | ReadFailed | DiskFailed | StorageGone | DecodeFailed

  /** The request's body, the two context keys, the storages let go, and how many were made in all. */
  datatype Context = Context(source: Source, cached: Option<seq<bv8>>, storage: Option<Stored>, released: seq<Stored>, made: nat)

  datatype Settings = Settings(enabled: bool, threshold: int, usage: int, limit: int, maxMB: int, contentLength: int,
                               diskFails: bool, readFails: bool)

  const MB := 1048576

  function MaxBytes(s: Settings): nat { (if s.maxMB <= 0 then 128 else s.maxMB) * MB }

  predicate UsesDisk(s: Settings, size: int) { s.enabled && size >= s.threshold && s.usage + size <= s.limit }

  function Fresh(disk: bool, data: seq<bv8>): Stored { Stored(disk, State(data, 0, false)) }

  /** CreateBodyStorage: falls back to memory when the disk fails. */
  function Create(s: Settings, data: seq<bv8>): Stored { Fresh(UsesDisk(s, |data|) && !s.diskFails, data) }

  datatype Created = Ok(stored: Stored) | Err(failure: Failure)

  predicate Streams(s: Settings) { s.contentLength > 0 && UsesDisk(s, s.contentLength) }

  /** CreateBodyStorageFromReader; a body that was read before cannot be read again. A request without
      a body has content length 0. */
  function FromReader(s: Settings, source: Source): Created {
    if source.NoBody? then Ok(Create(s, []))
    else if !source.Live? || s.readFails then Err(if Streams(s) then DiskFailed else ReadFailed)
    else if Streams(s) && s.diskFails then Err(DiskFailed)
    else if |source.rest| > MaxBytes(s) then Err(TooLarge)
    else if Streams(s) then Ok(Fresh(true, source.rest))
    else Ok(Create(s, source.rest))
  }

  function Moved(c: Context, pos: nat): Context
    requires c.storage.Some?
  {
    c.(storage := Some(c.storage.value.(state := c.storage.value.state.(pos := pos))))
  }

  /** GetRequestBody */
  function Get(c: Context, s: Settings): (Context, Option<Failure>) {
    if c.storage.Some? then
      if c.storage.value.state.closed then (c, Some(StorageGone)) else (Moved(c, 0), None)
    else if c.cached.Some? then (Keeping(c, Create(s, c.cached.value)), None)
    else
      var closed := if c.source.Live? then c.(source := Spent) else c;
      var r := FromReader(s, c.source);
      if r.Ok? then (Keeping(closed, r.stored), None) else (closed, Some(r.failure))
  }

  function Keeping(c: Context, stored: Stored): Context { c.(storage := Some(stored), made := c.made + 1) }

  /** CleanupBodyStorage: closes the storage and forgets it. */
  function Cleanup(c: Context): Context {
    if c.storage.None? then c else c.(storage := None, released := c.released + [Used(c.storage.value, Close)])
  }

  /** UnmarshalBodyReusable: a JSON body on disk is decoded from the storage itself. */
  function Unmarshal(c: Context, s: Settings, json: bool, decodes: bool, consumed: nat): (Context, Option<Failure>) {
    var (got, failed) := Get(c, s);
    if failed.Some? then (got, failed)
    else if !decodes then (if got.storage.value.disk && json then Moved(got, consumed) else got, Some(DecodeFailed))
    else (Moved(got, 0).(source := Replay), None)
  }

  // ---------------------------------------------------------------- whole requests

  datatype Action =
    | Getting(s: Settings)
    | Unmarshalling(s: Settings, json: bool, decodes: bool, consumed: nat)
    | Using(op: Op)
    | Rewriting(bytes: seq<bv8>)
    | CleaningUp

  function Act(c: Context, a: Action): (Context, Option<Failure>) {
    match a
    case Getting(s) => Get(c, s)
    case Unmarshalling(s, json, decodes, consumed) => Unmarshal(c, s, json, decodes, consumed)
    case Using(op) => (if c.storage.Some? then c.(storage := Some(Used(c.storage.value, op))) else c, None)
    case Rewriting(bytes) => (c.(source := Live(bytes), cached := Some(bytes)), None)
    case CleaningUp => (Cleanup(c), None)
  }

  function Used(stored: Stored, op: Op): Stored { stored.(state := Step(stored.disk, stored.state, op).0) }

  function After(c: Context, actions: seq<Action>): Context {
    if actions == [] then c else Act(After(c, actions[..|actions| - 1]), actions[|actions| - 1]).0
  }

  predicate Asks(a: Action) { a.Getting? || a.Unmarshalling? }

  predicate Rewrites(actions: seq<Action>) { exists i :: 0 <= i < |actions| && actions[i].Rewriting? }

  /** The body last given: the client's, or a rewritten one. */
  function Latest(actions: seq<Action>, body: seq<bv8>): seq<bv8> {
    if actions == [] then body
    else if actions[|actions| - 1].Rewriting? then actions[|actions| - 1].bytes
    else Latest(actions[..|actions| - 1], body)
  }

  /** The body that counts: a rewritten one only if no storage is held when it is given, or once that
      storage is released. */
  function Served(c: Context, actions: seq<Action>, body: seq<bv8>): seq<bv8> {
    if actions == [] then body
    else
      var init := actions[..|actions| - 1];
      if After(c, actions).storage.None? then Latest(actions, body) else Served(c, init, body)
  }

  /** Everything the context can still serve is `served`, and what it falls back to is `latest`. */
  ghost predicate Holds(c: Context, served: seq<bv8>, latest: seq<bv8>) {
    && (c.storage.Some? ==> c.storage.value.state.data == served)
    && (c.storage.None? ==> served == latest)
    && (c.cached.Some? ==> c.cached.value == latest)
    && (c.cached.None? && c.source.Live? ==> c.source.rest == latest)
    && (c.cached.None? && c.source.NoBody? ==> latest == [])
  }

  lemma ActHolds(c: Context, a: Action, served: seq<bv8>, latest: seq<bv8>)
    requires Holds(c, served, latest)
    ensures var next, now := Act(c, a).0, if a.Rewriting? then a.bytes else latest;
            Holds(next, if next.storage.None? then now else served, now)
  {
  }

  /** However often and in whatever order a request's body is fetched, decoded, read, moved, rewritten
      and released, what the context holds is the body that counts and nothing else. */
  lemma {:induction false} AlwaysHolds(c: Context, actions: seq<Action>, body: seq<bv8>)
    requires Holds(c, body, body)
    ensures Holds(After(c, actions), Served(c, actions, body), Latest(actions, body))
  {
    if actions != [] {
      var init := actions[..|actions| - 1];
      AlwaysHolds(c, init, body);
      ActHolds(After(c, init), actions[|actions| - 1], Served(c, init, body), Latest(init, body));
    }
  }

  /** Unless it is rewritten, that is the body the client sent. */
  lemma {:induction false} SentBodyCounts(c: Context, actions: seq<Action>, body: seq<bv8>)
    requires !Rewrites(actions)
    ensures Served(c, actions, body) == Latest(actions, body) == body
  {
    if actions != [] {
      RewritesBefore(actions);
      SentBodyCounts(c, actions[..|actions| - 1], body);
    }
  }

  /** A fetch or decode that succeeds leaves the whole body that counts ready at its start. */
  lemma SuccessServesBody(c: Context, actions: seq<Action>, a: Action, body: seq<bv8>)
    requires Holds(c, body, body) && Asks(a)
    requires Act(After(c, actions), a).1.None?
    ensures var served := Act(After(c, actions), a).0;
            && served.storage.Some? && served.storage.value.state == State(Served(c, actions, body), 0, false)
            && (a.Unmarshalling? ==> served.source == Replay)
            && (!Rewrites(actions) ==> Served(c, actions, body) == body)
  {
    AlwaysHolds(c, actions, body);
    if !Rewrites(actions) { SentBodyCounts(c, actions, body); }
  }

  /** At any point of any run, a fetch or decode that succeeds right after the body was rewritten serves
      the rewritten body if and only if no storage is held, or one of the very same bytes. */
  lemma RewrittenServedIff(c: Context, actions: seq<Action>, bytes: seq<bv8>, a: Action, body: seq<bv8>)
    requires Holds(c, body, body) && Asks(a)
    requires Act(After(c, actions + [Rewriting(bytes)]), a).1.None?
    ensures var served := Act(After(c, actions + [Rewriting(bytes)]), a).0; var before := After(c, actions);
            && served.storage.Some?
            && (served.storage.value.state.data == bytes <==> before.storage.None? || Served(c, actions, body) == bytes)
  {
    var all := actions + [Rewriting(bytes)];
    assert all[..|all| - 1] == actions;
    AlwaysHolds(c, actions, body);
    SuccessServesBody(c, all, a, body);
  }

  /** A storage is held until it is released, and with it the body that counts. */
  lemma {:induction false} HeldStays(c: Context, actions: seq<Action>, k: nat, body: seq<bv8>)
    requires k <= |actions| && After(c, actions[..k]).storage.Some? && forall i :: k <= i < |actions| ==> !actions[i].CleaningUp?
    ensures After(c, actions).storage.Some? && Served(c, actions, body) == Served(c, actions[..k], body)
  {
    if k == |actions| {
      assert actions[..k] == actions;
    } else {
      var init := actions[..|actions| - 1];
      assert init[..k] == actions[..k];
      HeldStays(c, init, k, body);
    }
  }

  /** So on the adapters' routes, which decode the body before they rewrite it: once the client's body has
      been fetched, every fetch until its release serves that body, whatever is put in its place. */
  lemma AdaptersIgnored(source: Source, actions: seq<Action>, k: nat, a: Action)
    requires source.Live? && Asks(a) && k <= |actions| && !Rewrites(actions[..k]) && After(Arrived(source), actions[..k]).storage.Some?
    requires (forall i :: k <= i < |actions| ==> !actions[i].CleaningUp?) && Act(After(Arrived(source), actions), a).1.None?
    ensures var served := Act(After(Arrived(source), actions), a).0;
            served.storage.Some? && served.storage.value.state == State(source.rest, 0, false)
  {
    var c := Arrived(source);
    SuccessServesBody(c, actions, a, source.rest);
    HeldStays(c, actions, k, source.rest);
    SentBodyCounts(c, actions[..k], source.rest);
  }

  /** So whoever reads next, in whatever pieces, reads that body. */
  lemma ServedBodyReadsBack(c: Context, actions: seq<Action>, a: Action, body: seq<bv8>, rooms: seq<nat>)
    requires Holds(c, body, body) && Asks(a) && Total(rooms) >= |Served(c, actions, body)|
    requires Act(After(c, actions), a).1.None?
    ensures var served := Act(After(c, actions), a).0.storage.value;
            Joined(Observed(served.disk, served.state, Reads(rooms))) == Served(c, actions, body)
    ensures !Rewrites(actions) ==> Served(c, actions, body) == body
  {
    SuccessServesBody(c, actions, a, body);
    var served := Act(After(c, actions), a).0.storage.value;
    ReadsReplay(served.disk, served.state, rooms);
  }

  function Arrived(source: Source): Context { Context(source, None, None, [], 0) }

  /** The body may go to disk: that is enabled, the size reaches the threshold and the cache has room. */
  predicate FitsOnDisk(s: Settings, size: int) { s.enabled && s.threshold <= size && size <= s.limit - s.usage }

  /** It goes there straight from the connection: its announced length is known and may go to disk. */
  predicate GoesStraight(s: Settings) { 0 < s.contentLength && FitsOnDisk(s, s.contentLength) }

  function LimitBytes(s: Settings): int { 1048576 * if s.maxMB > 0 then s.maxMB else 128 }

  /** The first fetch succeeds exactly when nothing it needs fails and the body is within the limit, 128 MB
      unless set; it then holds the body on disk exactly when it went there straight or fits there and
      the disk works. */
  lemma FirstFetchIff(body: seq<bv8>, s: Settings)
    ensures var (c, r) := Get(Arrived(Live(body)), s); var broken := s.readFails || (GoesStraight(s) && s.diskFails);
            && (r.None? <==> !broken && |body| <= LimitBytes(s))
            && (r == Some(TooLarge) <==> !broken && |body| > LimitBytes(s))
            && (broken ==> r == Some(if GoesStraight(s) then DiskFailed else ReadFailed))
            && (r.None? ==> c.storage == Some(Stored(GoesStraight(s) || (FitsOnDisk(s, |body|) && !s.diskFails), State(body, 0, false))))
            && (r.Some? ==> c.storage == None)
  {
  }

  /** A body that was rewritten, or that is empty because there is none, is stored the same way whatever
      is announced, and without a limit. */
  lemma StoredAgain(c: Context, s: Settings)
    requires c.storage.None? && (c.cached.Some? || c.source.NoBody?)
    ensures var body := if c.cached.Some? then c.cached.value else [];
            Get(c, s) == (c.(storage := Some(Stored(FitsOnDisk(s, |body|) && !s.diskFails, State(body, 0, false))), made := c.made + 1), None)
  {
  }

  /** A fetch while a storage is held rewinds it and touches nothing else, or fails if it was closed. */
  lemma HeldFetch(c: Context, s: Settings)
    requires c.storage.Some?
    ensures var held := c.storage.value;
            Get(c, s) == if held.state.closed then (c, Some(StorageGone))
                         else (c.(storage := Some(Stored(held.disk, State(held.state.data, 0, false)))), None)
  {
  }

  /** A decode fails where the fetch fails, and then only leaves what the fetch left; when the decoder
      fails, a JSON body on disk stays where the decoder stopped and any other at its start; when it
      succeeds the body is at its start and takes the place of the request's. */
  lemma UnmarshalIs(c: Context, s: Settings, json: bool, decodes: bool, consumed: nat)
    ensures var (got, failed) := Get(c, s); var (next, error) := Unmarshal(c, s, json, decodes, consumed);
      if failed.Some? then next == got && error == failed
      else
        && got.storage.Some?
        && var held := got.storage.value;
           if decodes then next == got.(storage := Some(Stored(held.disk, State(held.state.data, 0, held.state.closed))), source := Replay) && error == None
           else
             && error == Some(DecodeFailed)
             && next == got.(storage := Some(Stored(held.disk, State(held.state.data, if held.disk && json then consumed else held.state.pos, held.state.closed))))
  {
  }

  /** Using, rewriting and cleaning up: a use acts on the storage held alone; a rewrite replaces what the
      request brought and nothing that is held; a clean-up closes and forgets what is held. */
  lemma OtherActions(c: Context, op: Op, bytes: seq<bv8>)
    ensures Act(c, Using(op)) == (if c.storage.None? then c
              else c.(storage := Some(Stored(c.storage.value.disk, Step(c.storage.value.disk, c.storage.value.state, op).0))), None)
    ensures Act(c, Rewriting(bytes)) == (Context(Live(bytes), Some(bytes), c.storage, c.released, c.made), None)
    ensures Act(c, CleaningUp) == (if c.storage.None? then c
              else c.(storage := None, released := c.released + [Stored(c.storage.value.disk, State(c.storage.value.state.data, c.storage.value.state.pos, true))]), None)
  {
  }

  // ---------------------------------------------------------------- once it is gone

  /** Nothing left to serve from. */
  predicate Exhausted(c: Context) { c.storage.None? && c.cached.None? && (c.source.Spent? || c.source.Replay?) }

  lemma RewritesBefore(actions: seq<Action>)
    requires actions != []
    ensures Rewrites(actions) <==> Rewrites(actions[..|actions| - 1]) || actions[|actions| - 1].Rewriting?
  {
    var init := actions[..|actions| - 1];
    if i :| 0 <= i < |init| && init[i].Rewriting? { assert actions[i].Rewriting?; }
    if i :| 0 <= i < |actions| && actions[i].Rewriting? { assert i < |init| ==> init[i].Rewriting?; }
  }

  /** A body once given stays behind. */
  lemma {:induction false} Remembered(c: Context, actions: seq<Action>)
    requires c.cached.None?
    ensures After(c, actions).cached.Some? <==> Rewrites(actions)
  {
    if actions != [] {
      Remembered(c, actions[..|actions| - 1]);
      RewritesBefore(actions);
    }
  }

  /** Then the body is gone for good, until another is put in its place: later fetches fail instead of
      serving an empty or a partial body. */
  lemma {:induction false} ExhaustedStays(c: Context, actions: seq<Action>, a: Action)
    requires Exhausted(c) && Asks(a) && !Rewrites(actions)
    ensures Exhausted(After(c, actions)) && Act(After(c, actions), a).1.Some?
  {
    if actions != [] {
      var last := actions[|actions| - 1];
      RewritesBefore(actions);
      ExhaustedStays(c, actions[..|actions| - 1], if Asks(last) then last else a);
    }
  }

  /** Exactly, at any point of any run from there: a fetch succeeds if and only if the body was
      rewritten and no closed storage is in the way. */
  lemma ExhaustedFetchIff(c: Context, actions: seq<Action>, s: Settings)
    requires Exhausted(c)
    ensures var now := After(c, actions);
            Get(now, s).1.None? <==> Rewrites(actions) && (now.storage.Some? ==> !now.storage.value.state.closed)
  {
    Remembered(c, actions);
    if !Rewrites(actions) { ExhaustedStays(c, actions, Getting(s)); }
  }

  /** A body that came over the connection is gone after a failed first fetch, or once cleaned up. */
  lemma FailureExhausts(body: seq<bv8>, s: Settings, actions: seq<Action>, a: Action)
    requires Asks(a) && !Rewrites(actions)
    ensures var (c, failed) := Get(Arrived(Live(body)), s);
            && (failed.Some? ==> Act(After(c, actions), a).1.Some?)
            && Act(After(Cleanup(c), actions), a).1.Some?
  {
    var (c, failed) := Get(Arrived(Live(body)), s);
    if failed.Some? { ExhaustedStays(c, actions, a); }
    ExhaustedStays(Cleanup(c), actions, a);
  }

  /** A body is served again after a fetch and a clean-up if and only if there was none to begin with. */
  lemma ServedAgainIff(source: Source, s: Settings, again: Settings)
    requires source.Live? || source.NoBody?
    ensures Get(Cleanup(Get(Arrived(source), s).0), again).1.None? <==> source.NoBody?
  {
    if source.Live? { FailureExhausts(source.rest, s, [], Getting(again)); }
  }

  /** Some decode succeeded, which puts the storage in the place of the request's body. */
  predicate Decoded(c: Context, actions: seq<Action>) {
    actions != [] &&
    (Decoded(c, actions[..|actions| - 1]) || Decodes(After(c, actions[..|actions| - 1]), actions[|actions| - 1]))
  }

  predicate Decodes(c: Context, a: Action) { a.Unmarshalling? && Act(c, a).1.None? }

  lemma {:induction false} BodylessSource(actions: seq<Action>)
    requires !Rewrites(actions)
    ensures After(Arrived(NoBody), actions).source == if Decoded(Arrived(NoBody), actions) then Replay else NoBody
  {
    if actions != [] {
      RewritesBefore(actions);
      BodylessSource(actions[..|actions| - 1]);
    }
  }

  /** For a request without a body a fetch succeeds, at any point of any run, exactly when the storage
      there is has not been closed, or there is none and the body was rewritten or never decoded. */
  lemma BodylessFetchIff(actions: seq<Action>, s: Settings)
    ensures var c := After(Arrived(NoBody), actions);
            Get(c, s).1.None? <==>
            if c.storage.Some? then !c.storage.value.state.closed else Rewrites(actions) || !Decoded(Arrived(NoBody), actions)
  {
    Remembered(Arrived(NoBody), actions);
    if !Rewrites(actions) { BodylessSource(actions); }
  }

  // ---------------------------------------------------------------- nothing leaks

  /** Every storage made is the current one or was let go, and those let go are closed. */
  ghost predicate Accounted(c: Context) {
    && c.made == |c.released| + (if c.storage.Some? then 1 else 0)
    && forall i :: 0 <= i < |c.released| ==> c.released[i].state.closed
  }

  lemma ActAccounted(c: Context, a: Action)
    requires Accounted(c)
    ensures Accounted(Act(c, a).0)
  {}

  /** Over every run no storage is lost sight of: once the request is cleaned up, all that were ever
      made for it are closed. */
  lemma {:induction false} NothingLeaks(c: Context, actions: seq<Action>)
    requires Accounted(c)
    ensures Accounted(After(c, actions))
    ensures var end := Cleanup(After(c, actions)); end.made == |end.released| && Accounted(end)
  {
    if actions != [] {
      NothingLeaks(c, actions[..|actions| - 1]);
      ActAccounted(After(c, actions[..|actions| - 1]), actions[|actions| - 1]);
    }
    ActAccounted(After(c, actions), CleaningUp);
  }

  // ---------------------------------------------------------------- in place

  class Request {
    var source: Source
    var cached: Option<seq<bv8>>
    var storage: Option<Stored>
    ghost var released: seq<Stored>
    ghost var made: nat

    ghost function AsContext(): Context
      reads this
    {
      Context(source, cached, storage, released, made)
    }

    constructor (body: Source)
      ensures AsContext() == Arrived(body)
    {
      source, cached, storage, released, made := body, None, None, [], 0;
    }

    method Keep(stored: Stored)
      modifies this`storage, this`made
      ensures AsContext() == Keeping(old(AsContext()), stored)
    {
      storage, made := Some(stored), made + 1;
    }

    method Rewind()
      requires storage.Some?
      modifies this`storage
      ensures AsContext() == Moved(old(AsContext()), 0)
    {
      storage := Some(storage.value.(state := SeekTo(storage.value.state, 0, 0).0));
    }

    method GetRequestBody(s: Settings) returns (failed: Option<Failure>)
      modifies this
      ensures (AsContext(), failed) == Get(old(AsContext()), s)
    {
      if storage.Some? {
        if storage.value.state.closed {
          return Some(StorageGone);
        }
        Rewind();
        return None;
      }
      if cached.Some? {
        Keep(Create(s, cached.value));
        return None;
      }
      var r := FromReader(s, source);
      if source.Live? { source := Spent; }
      if r.Err? {
        return Some(r.failure);
      }
      Keep(r.stored);
      failed := None;
    }

    /** The adapters' rewrite. */
    method Rewrite(bytes: seq<bv8>)
      modifies this`source, this`cached
      ensures (AsContext(), None) == Act(old(AsContext()), Rewriting(bytes))
    {
      source, cached := Live(bytes), Some(bytes);
    }

    method CleanupBodyStorage()
      modifies this`storage, this`released
      ensures AsContext() == Cleanup(old(AsContext()))
    {
      if storage.Some? {
        storage := Some(Used(storage.value, Close));
        released := released + [storage.value];
        storage := None;
      }
    }

    method UnmarshalBodyReusable(s: Settings, json: bool, decodes: bool, consumed: nat) returns (failed: Option<Failure>)
      modifies this
      ensures (AsContext(), failed) == Unmarshal(old(AsContext()), s, json, decodes, consumed)
    {
      failed := GetRequestBody(s);
      if failed.Some? {
        return;
      }
      if storage.value.disk && json {
        Rewind();
        storage := Some(storage.value.(state := storage.value.state.(pos := consumed)));
      }
      if !decodes {
        return Some(DecodeFailed);
      }
      Rewind();
      source := Replay;
    }
  }
}
