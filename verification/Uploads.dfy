/** The upload coordinator (packages/core/drafts/upload-coordinator.ts): starts,
    aborts and completions in any interleaving. An upload is known by its start
    number, which stands for the identity of its AbortController. */
module Uploads {

  datatype Outcome = Uploaded | Failed

  /** A call of onSettled, and whether the upload had been aborted by then. */
  datatype Report = Report(outcome: Outcome, aborted: bool)

  /** Running until the request settles; Settling between the callback and the
      finally block, so that the callback may call the coordinator again. */
  datatype Phase = Running | Settling | Finished

  datatype Upload = Upload(clientId: string, aborted: bool, phase: Phase, reports: seq<Report>)

  /** Every upload ever started, by start number, and the tracked controllers. */
  datatype State = State(uploads: seq<Upload>, controllers: map<string, nat>)

  const INITIAL := State([], map[])

  datatype Event =
    | Start(clientId: string)
    | Abort(clientId: string)
    | AbortAll
    | Resolve(upload: nat)
    | Reject(upload: nat, isAbortError: bool)
    | Finally(upload: nat)

  /** The uploads after the controllers in held were aborted. */
  function Aborted(uploads: seq<Upload>, held: set<nat>): seq<Upload> {
    seq(|uploads|, k requires 0 <= k < |uploads| =>
      if k in held then uploads[k].(aborted := true) else uploads[k])
  }

  function Settled(s: State, u: nat, reports: seq<Report>): State
    requires u < |s.uploads|
  {
    s.(uploads := s.uploads[u := s.uploads[u].(phase := Settling, reports := s.uploads[u].reports + reports)])
  }

  predicate InPhase(s: State, u: nat, phase: Phase) {
    u < |s.uploads| && s.uploads[u].phase == phase
  }

  /** A request settles once, and its finally block runs once after that. */
  predicate Possible(s: State, ev: Event) {
    match ev
    case Resolve(u) => InPhase(s, u, Running)
    case Reject(u, _) => InPhase(s, u, Running)
    case Finally(u) => InPhase(s, u, Settling)
    case _ => true
  }

  function Next(s: State, ev: Event): State
    requires Possible(s, ev)
  {
    match ev
    case Start(id) =>
      State(s.uploads + [Upload(id, false, Running, [])], s.controllers[id := |s.uploads|])
    case Abort(id) =>
      if id !in s.controllers then s
      else State(Aborted(s.uploads, {s.controllers[id]}), s.controllers - {id})
    case AbortAll => State(Aborted(s.uploads, s.controllers.Values), map[])
    case Resolve(u) => Settled(s, u, [Report(Uploaded, s.uploads[u].aborted)])
    case Reject(u, isAbortError) =>
      Settled(s, u, if s.uploads[u].aborted || isAbortError then [] else [Report(Failed, false)])
    case Finally(u) =>
      var id := s.uploads[u].clientId;
      State(s.uploads[u := s.uploads[u].(phase := Finished)],
            if id in s.controllers && s.controllers[id] == u then s.controllers - {id} else s.controllers)
  }

  // One step -------------------------------------------------------------------------

  /** Nothing with the same client id was started after u. */
  ghost predicate Latest(uploads: seq<Upload>, u: nat) {
    u < |uploads| && forall k :: u < k < |uploads| ==> uploads[k].clientId != uploads[u].clientId
  }

  ghost predicate Live(s: State, id: string, u: nat) {
    Latest(s.uploads, u) && s.uploads[u].clientId == id && s.uploads[u].phase != Finished && !s.uploads[u].aborted
  }

  predicate Tracked(s: State, id: string, u: nat) {
    id in s.controllers && s.controllers[id] == u
  }

  /** The controllers map holds exactly the latest, unfinished, unaborted uploads. */
  ghost predicate TracksExactly(s: State) {
    forall id, u: nat :: Tracked(s, id, u) <==> Live(s, id, u)
  }

  /** At most one report, none while running, and a failure only if not aborted. */
  predicate SettlesOnce(u: Upload) {
    && |u.reports| <= 1
    && (u.phase == Running ==> u.reports == [])
    && (u.reports != [] && u.reports[0].outcome == Failed ==> !u.reports[0].aborted)
  }

  ghost predicate Good(s: State) {
    TracksExactly(s) && forall k :: 0 <= k < |s.uploads| ==> SettlesOnce(s.uploads[k])
  }

  lemma LatestSame(a: seq<Upload>, b: seq<Upload>, u: nat)
    requires |a| == |b| && forall k :: 0 <= k < |a| ==> a[k].clientId == b[k].clientId
    ensures Latest(a, u) <==> Latest(b, u)
  {
  }

  lemma StartTracks(s: State, started: string, id: string, u: nat)
    requires TracksExactly(s)
    ensures Tracked(Next(s, Start(started)), id, u) <==> Live(Next(s, Start(started)), id, u)
  {
    var next := Next(s, Start(started));
    assert Tracked(s, id, u) <==> Live(s, id, u);
    if u < |s.uploads| {
      assert next.uploads[u] == s.uploads[u];
      if Latest(next.uploads, u) {
        assert next.uploads[|s.uploads|].clientId == started;
        assert forall k :: 0 <= k < |s.uploads| ==> next.uploads[k] == s.uploads[k];
      }
    }
  }

  lemma AbortTracks(s: State, aborted: string, id: string, u: nat)
    requires TracksExactly(s)
    ensures Tracked(Next(s, Abort(aborted)), id, u) <==> Live(Next(s, Abort(aborted)), id, u)
  {
    assert Tracked(s, id, u) <==> Live(s, id, u);
    if aborted in s.controllers {
      LatestSame(s.uploads, Next(s, Abort(aborted)).uploads, u);
      assert Tracked(s, aborted, s.controllers[aborted]);
    }
  }

  lemma AbortAllTracks(s: State, id: string, u: nat)
    requires TracksExactly(s)
    ensures Tracked(Next(s, AbortAll), id, u) <==> Live(Next(s, AbortAll), id, u)
  {
    assert Tracked(s, id, u) <==> Live(s, id, u);
    LatestSame(s.uploads, Next(s, AbortAll).uploads, u);
    if Live(s, id, u) {
      assert u in s.controllers.Values;
    }
  }

  lemma SettledTracks(s: State, settled: nat, reports: seq<Report>, id: string, u: nat)
    requires TracksExactly(s) && InPhase(s, settled, Running)
    ensures Tracked(Settled(s, settled, reports), id, u) <==> Live(Settled(s, settled, reports), id, u)
  {
    assert Tracked(s, id, u) <==> Live(s, id, u);
    LatestSame(s.uploads, Settled(s, settled, reports).uploads, u);
  }

  lemma FinallyTracks(s: State, finished: nat, id: string, u: nat)
    requires TracksExactly(s) && InPhase(s, finished, Settling)
    ensures Tracked(Next(s, Finally(finished)), id, u) <==> Live(Next(s, Finally(finished)), id, u)
  {
    assert Tracked(s, id, u) <==> Live(s, id, u);
    assert Tracked(s, id, finished) <==> Live(s, id, finished);
    LatestSame(s.uploads, Next(s, Finally(finished)).uploads, u);
  }

  lemma StepStaysGood(s: State, ev: Event)
    requires Good(s) && Possible(s, ev)
    ensures Good(Next(s, ev))
  {
    var next := Next(s, ev);
    forall id, u: nat
      ensures Tracked(next, id, u) <==> Live(next, id, u)
    {
      match ev
      case Start(started) => StartTracks(s, started, id, u);
      case Abort(aborted) => AbortTracks(s, aborted, id, u);
      case AbortAll => AbortAllTracks(s, id, u);
      case Resolve(w) => SettledTracks(s, w, [Report(Uploaded, s.uploads[w].aborted)], id, u);
      case Reject(w, isAbortError) =>
        SettledTracks(s, w, if s.uploads[w].aborted || isAbortError then [] else [Report(Failed, false)], id, u);
      case Finally(w) => FinallyTracks(s, w, id, u);
    }
  }

  // Every run ------------------------------------------------------------------------

  predicate PossibleFrom(s: State, run: seq<Event>)
    decreases run
  {
    run == [] || (Possible(s, run[0]) && PossibleFrom(Next(s, run[0]), run[1..]))
  }

  function After(s: State, run: seq<Event>): State
    requires PossibleFrom(s, run)
    decreases run
  {
    if run == [] then s else After(Next(s, run[0]), run[1..])
  }

  lemma {:induction false} RunsStayGood(s: State, run: seq<Event>)
    requires Good(s) && PossibleFrom(s, run)
    ensures Good(After(s, run))
    decreases run
  {
    if run == [] {
    } else {
      StepStaysGood(s, run[0]);
      RunsStayGood(Next(s, run[0]), run[1..]);
    }
  }

  /** In every interleaving the controllers are exactly the latest, unfinished,
      unaborted uploads; each upload reports at most once and never fails after
      its abort. */
  lemma EveryRunIsGood(run: seq<Event>)
    requires PossibleFrom(INITIAL, run)
    ensures Good(After(INITIAL, run))
  {
    RunsStayGood(INITIAL, run);
  }

  /** An upload that ends untracks itself or nothing: never a newer upload under
      the same id, and no other id. */
  lemma FinishUntracksOnlyItself(s: State, u: nat)
    requires Good(s) && InPhase(s, u, Settling)
    ensures forall id, v: nat :: v != u && Tracked(s, id, v) ==> Tracked(Next(s, Finally(u)), id, v)
    ensures forall id :: !Tracked(Next(s, Finally(u)), id, u)
    ensures !Latest(s.uploads, u) ==> Next(s, Finally(u)).controllers == s.controllers
  {
    assert Tracked(s, s.uploads[u].clientId, u) <==> Live(s, s.uploads[u].clientId, u);
    forall id
      ensures !Tracked(Next(s, Finally(u)), id, u)
    {
      assert Tracked(s, id, u) <==> Live(s, id, u);
    }
  }

  /** Reports are never taken back, so a settled upload keeps its one report. */
  lemma {:induction false} ReportsStand(s: State, run: seq<Event>, u: nat)
    requires Good(s) && PossibleFrom(s, run) && u < |s.uploads| && s.uploads[u].phase != Running
    ensures u < |After(s, run).uploads|
    ensures After(s, run).uploads[u].reports == s.uploads[u].reports
    decreases run
  {
    if run == [] {
    } else {
      StepStaysGood(s, run[0]);
      ReportsStand(Next(s, run[0]), run[1..], u);
    }
  }

  /** A superseded upload is out of reach: whatever happens next, it is never
      aborted. */
  lemma {:induction false} SupersededIsNeverAborted(s: State, run: seq<Event>, u: nat)
    requires Good(s) && PossibleFrom(s, run) && u < |s.uploads| && !Latest(s.uploads, u)
    ensures u < |After(s, run).uploads|
    ensures After(s, run).uploads[u].aborted == s.uploads[u].aborted
    decreases run
  {
    if run == [] {
    } else {
      SupersededStep(s, run[0], u);
      StepStaysGood(s, run[0]);
      SupersededIsNeverAborted(Next(s, run[0]), run[1..], u);
    }
  }

  lemma SupersededStep(s: State, ev: Event, u: nat)
    requires TracksExactly(s) && Possible(s, ev) && u < |s.uploads| && !Latest(s.uploads, u)
    ensures
      var next := Next(s, ev).uploads;
      u < |next| && !Latest(next, u) && next[u].aborted == s.uploads[u].aborted
  {
    var k :| u < k < |s.uploads| && s.uploads[k].clientId == s.uploads[u].clientId;
    assert Next(s, ev).uploads[k].clientId == Next(s, ev).uploads[u].clientId;
    forall id
      ensures !Tracked(s, id, u)
    {
      assert Tracked(s, id, u) <==> Live(s, id, u);
    }
    if u in s.controllers.Values {
      var id :| id in s.controllers && s.controllers[id] == u;
      assert Tracked(s, id, u);
    }
  }

  lemma {:induction false} AbortStands(s: State, run: seq<Event>, u: nat)
    requires PossibleFrom(s, run) && u < |s.uploads| && s.uploads[u].aborted
    ensures u < |After(s, run).uploads| && After(s, run).uploads[u].aborted
    decreases run
  {
    if run == [] {
    } else {
      AbortStands(Next(s, run[0]), run[1..], u);
    }
  }

  /** An upload that is aborted while running and settles only later, whatever happens
      in between: its request may still resolve, and is then reported as uploaded; if
      it is rejected nothing is reported. */
  lemma SuccessMayFollowAbort(s: State, run: seq<Event>, u: nat, isAbortError: bool)
    requires Good(s) && InPhase(s, u, Running) && Tracked(s, s.uploads[u].clientId, u)
    requires PossibleFrom(Next(s, Abort(s.uploads[u].clientId)), run)
    requires InPhase(After(Next(s, Abort(s.uploads[u].clientId)), run), u, Running)
    ensures
      var later := After(Next(s, Abort(s.uploads[u].clientId)), run);
      && Possible(later, Resolve(u)) && Possible(later, Reject(u, isAbortError))
      && Next(later, Resolve(u)).uploads[u].reports == [Report(Uploaded, true)]
      && Next(later, Reject(u, isAbortError)).uploads[u].reports == []
  {
    var ev := Abort(s.uploads[u].clientId);
    StepStaysGood(s, ev);
    RunsStayGood(Next(s, ev), run);
    AbortStands(Next(s, ev), run, u);
    assert SettlesOnce(After(Next(s, ev), run).uploads[u]);
  }

  // What is reported, and who is aborted --------------------------------------------------

  /** What the request of an upload comes to: a success is reported whatever happened, a
      rejection exactly if the upload was not aborted and the error is no AbortError. */
  function Decision(ev: Event, aborted: bool): seq<Report>
    requires ev.Resolve? || ev.Reject?
  {
    if ev.Resolve? then [Report(Uploaded, aborted)]
    else if !aborted && !ev.isAbortError then [Report(Failed, false)]
    else []
  }

  /** However the run goes on, a settled upload has been reported once as its request
      came out, or not at all. */
  lemma SettlingDecides(s: State, ev: Event, later: seq<Event>)
    requires Good(s) && (ev.Resolve? || ev.Reject?) && Possible(s, ev) && PossibleFrom(Next(s, ev), later)
    ensures ev.upload < |After(Next(s, ev), later).uploads|
    ensures
      After(Next(s, ev), later).uploads[ev.upload].reports == Decision(ev, s.uploads[ev.upload].aborted)
    ensures InPhase(Next(s, ev), ev.upload, Settling)
    ensures forall v: nat :: v < |s.uploads| && v != ev.upload ==> Next(s, ev).uploads[v] == s.uploads[v]
  {
    assert SettlesOnce(s.uploads[ev.upload]);
    StepStaysGood(s, ev);
    ReportsStand(Next(s, ev), later, ev.upload);
  }

  /** A start adds one running upload, which is the tracked one of its id, and its
      finally block finishes that upload alone. */
  lemma StartAndFinish(s: State, id: string, u: nat)
    requires Good(s)
    ensures
      var next := Next(s, Start(id));
      && next.uploads == s.uploads + [Upload(id, false, Running, [])] && Tracked(next, id, |s.uploads|)
      && forall other, v: nat :: other != id ==> (Tracked(next, other, v) <==> Tracked(s, other, v))
    ensures InPhase(s, u, Settling) ==>
      && InPhase(Next(s, Finally(u)), u, Finished)
      && Next(s, Finally(u)).uploads[u].reports == s.uploads[u].reports
      && forall v: nat :: v < |s.uploads| && v != u ==> Next(s, Finally(u)).uploads[v] == s.uploads[v]
  {
  }

  /** The event aborts what is tracked under the id. */
  predicate Aborts(ev: Event, id: string) {
    ev == Abort(id) || ev.AbortAll?
  }

  /** At some point of the run upload u is the latest of its id, unfinished and not yet
      aborted, and its id, or everything, is aborted. */
  ghost predicate IsAborted(s: State, run: seq<Event>, u: nat)
    requires PossibleFrom(s, run)
    decreases run
  {
    run != [] &&
    (|| (u < |s.uploads| && Live(s, s.uploads[u].clientId, u) && Aborts(run[0], s.uploads[u].clientId))
     || IsAborted(Next(s, run[0]), run[1..], u))
  }

  lemma AbortStep(s: State, ev: Event, u: nat)
    requires Good(s) && Possible(s, ev) && u < |s.uploads|
    ensures
      var upload := s.uploads[u];
      && u < |Next(s, ev).uploads|
      && (Next(s, ev).uploads[u].aborted
          <==> upload.aborted || (Live(s, upload.clientId, u) && Aborts(ev, upload.clientId)))
  {
    var id := s.uploads[u].clientId;
    assert Tracked(s, id, u) <==> Live(s, id, u);
    match ev
    case AbortAll =>
      if u in s.controllers.Values {
        var other :| other in s.controllers && s.controllers[other] == u;
        assert Tracked(s, other, u) <==> Live(s, other, u);
      }
    case Abort(other) =>
      if other in s.controllers && s.controllers[other] == u {
        assert Tracked(s, other, u) <==> Live(s, other, u);
      }
    case _ =>
  }

  /** In every run exactly those uploads are aborted. */
  lemma {:induction false} AbortedIff(s: State, run: seq<Event>, u: nat)
    requires Good(s) && PossibleFrom(s, run) && u < |After(s, run).uploads|
    ensures
      After(s, run).uploads[u].aborted
      <==> (u < |s.uploads| && s.uploads[u].aborted) || IsAborted(s, run, u)
    decreases run
  {
    if run == [] {
    } else {
      StepStaysGood(s, run[0]);
      AbortedIff(Next(s, run[0]), run[1..], u);
      if u < |s.uploads| {
        AbortStep(s, run[0], u);
      }
    }
  }

  // The module state -----------------------------------------------------------------

  class Coordinator {
    var controllers: map<string, nat>
    /** What the running closures and the signals they hold have come to. */
    var uploads: seq<Upload>

    ghost function Model(): State
      reads this
    {
      State(uploads, controllers)
    }

    /** Every tracked number is that of a started upload. */
    ghost predicate Valid()
      reads this
    {
      forall id <- controllers :: controllers[id] < |uploads|
    }

    constructor ()
      ensures Valid() && Model() == INITIAL
    {
      controllers, uploads := map[], [];
    }

    method StartUpload(clientId: string) returns (u: nat)
      requires Valid()
      modifies this
      ensures Valid() && u == |old(uploads)|
      ensures Model() == Next(old(Model()), Start(clientId))
    {
      u := |uploads|;
      controllers := controllers[clientId := u];
      uploads := uploads + [Upload(clientId, false, Running, [])];
    }

    /** The controller's own abort method. */
    method SignalAbort(u: nat)
      requires u < |uploads|
      modifies this`uploads
      ensures uploads == Aborted(old(uploads), {u})
    {
      uploads := uploads[u := uploads[u].(aborted := true)];
    }

    method AbortUpload(clientId: string)
      requires Valid()
      modifies this
      ensures Valid() && Model() == Next(old(Model()), Abort(clientId))
    {
      if clientId !in controllers {
        return;
      }
      var controller := controllers[clientId];
      controllers := controllers - {clientId};
      SignalAbort(controller);
    }

    method AbortEverything()
      requires Valid()
      modifies this
      ensures Valid() && Model() == Next(old(Model()), AbortAll)
    {
      if controllers == map[] {
        assert uploads == Aborted(uploads, {});
        return;
      }
      ghost var before := uploads;
      var left := controllers.Values;
      assert Aborted(before, {}) == before;
      while left != {}
        invariant left <= controllers.Values && controllers == old(controllers)
        invariant uploads == Aborted(before, controllers.Values - left)
        decreases left
      {
        var controller :| controller in left;
        ghost var was := uploads;
        SignalAbort(controller);
        assert controllers.Values - (left - {controller}) == controllers.Values - left + {controller};
        assert Aborted(was, {controller}) == Aborted(before, controllers.Values - left + {controller});
        left := left - {controller};
      }
      assert controllers.Values - left == controllers.Values;
      controllers := map[];
    }

    /** The request came back with an attachment. */
    method OnResolved(u: nat)
      requires Valid() && InPhase(Model(), u, Running)
      modifies this
      ensures Valid() && Model() == Next(old(Model()), Resolve(u))
    {
      uploads := uploads[u := uploads[u].(phase := Settling,
        reports := uploads[u].reports + [Report(Uploaded, uploads[u].aborted)])];
    }

    /** The request threw: nothing is reported when the signal was aborted or the
        error is an AbortError. */
    method OnRejected(u: nat, isAbortError: bool)
      requires Valid() && InPhase(Model(), u, Running)
      modifies this
      ensures Valid() && Model() == Next(old(Model()), Reject(u, isAbortError))
    {
      if uploads[u].aborted || isAbortError {
        uploads := uploads[u := uploads[u].(phase := Settling, reports := uploads[u].reports + [])];
        return;
      }
      uploads := uploads[u := uploads[u].(phase := Settling, reports := uploads[u].reports + [Report(Failed, false)])];
    }

    /** The finally block: only the controller that is still registered leaves. */
    method Finish(u: nat)
      requires Valid() && InPhase(Model(), u, Settling)
      modifies this
      ensures Valid() && Model() == Next(old(Model()), Finally(u))
    {
      var clientId := uploads[u].clientId;
      if clientId in controllers && controllers[clientId] == u {
        controllers := controllers - {clientId};
      }
      uploads := uploads[u := uploads[u].(phase := Finished)];
    }
  }
}
