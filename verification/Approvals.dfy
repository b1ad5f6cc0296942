/** The connection-approval machine. An incoming stream registers a request and waits for an answer or a timeout;
    answers are given by peer or by request number from other goroutines; numbers are recycled when no
    request is outstanding. Each event is one critical section, or one channel operation. */
module Approvals {
  import opened Runs

  type PeerId = string

  /** The three fields that the lock protects. A channel is named by the request that made it. */
  datatype Desk = Desk(nextNumber: nat, approvals: map<PeerId, nat>, numbers: map<nat, PeerId>)

  function Register(d: Desk, peer: PeerId, channel: nat): Desk {
    Desk(d.nextNumber + 1, d.approvals[peer := channel], d.numbers[d.nextNumber + 1 := peer])
  }

  /** Dropping the last number starts the numbering again. */
  function Unregister(d: Desk, peer: PeerId, number: nat): Desk {
    var numbers := d.numbers - {number};
    Desk(if |numbers| == 0 then 0 else d.nextNumber, d.approvals - {peer}, numbers)
  }

  /** The approval fields of the stream manager. */
  class ApprovalDesk {
    var nextRequestNum: nat
    var pendingApprovals: map<PeerId, nat>
    var pendingRequestNums: map<nat, PeerId>

    ghost function Value(): Desk
      reads this
    {
      Desk(nextRequestNum, pendingApprovals, pendingRequestNums)
    }

    constructor ()
      ensures Value() == Desk(0, map[], map[])
    {
      nextRequestNum, pendingApprovals, pendingRequestNums := 0, map[], map[];
    }

    method Begin(peer: PeerId, channel: nat) returns (number: nat)
      modifies this
      ensures number == old(nextRequestNum) + 1 && Value() == Register(old(Value()), peer, channel)
    {
      nextRequestNum := nextRequestNum + 1;
      number := nextRequestNum;
      pendingApprovals := pendingApprovals[peer := channel];
      pendingRequestNums := pendingRequestNums[number := peer];
    }

    method Finish(peer: PeerId, number: nat)
      modifies this
      ensures Value() == Unregister(old(Value()), peer, number)
    {
      pendingApprovals := pendingApprovals - {peer};
      pendingRequestNums := pendingRequestNums - {number};
      if |pendingRequestNums| == 0 {
        nextRequestNum := 0;
      }
    }
  }

  /** How far a request has come. `why` is the answer that accepted it. */
  datatype Progress = Waiting | Accepted(why: nat) | Refused | Done

  datatype Request = Request(peer: PeerId, number: nat, progress: Progress)

  /** Where an answer is: looked up by number, about to enter a channel, in a channel, taken by a request,
      used for an admission, or without a request to go to. */
  datatype Place =
    | Resolved
    | Outgoing(channel: nat)
    | InChannel(channel: nat)
    | Taken(request: nat)
    | Used(admission: nat)
    | Lost

  datatype Answer = Answer(peer: PeerId, accepted: bool, place: Place)

  /** A stream handed to `AddStream`, with the answer that let it in. */
  datatype Admission = Admission(peer: PeerId, why: nat)

  datatype State = State(
    desk: Desk,
    requests: map<nat, Request>,
    owners: map<nat, PeerId>,
    answers: seq<Answer>,
    admissions: seq<Admission>)

  const FRESH := State(Desk(0, map[], map[]), map[], map[], [], [])

  datatype Event =
    | Arrives(request: nat, peer: PeerId)
    | AnsweredByPeer(peer: PeerId, accepted: bool)
    | AnsweredByNumber(number: nat, accepted: bool)
    | Resolves(answer: nat)
    | Enters(answer: nat)
    | Takes(request: nat, answer: nat)
    | TimesOut(request: nat)
    | Admits(request: nat)
    | Rejects(request: nat)
    | CleansUp(request: nat)

  predicate At(s: State, answer: nat, place: Place) {
    answer < |s.answers| && s.answers[answer].place == place
  }

  ghost predicate Enabled(s: State, ev: Event) {
    match ev
    case Arrives(request, _) => request !in s.owners
    case AnsweredByPeer(_, _) => true
    case AnsweredByNumber(_, _) => true
    case Resolves(answer) => At(s, answer, Resolved)
    case Enters(answer) =>
      && answer < |s.answers| && s.answers[answer].place.Outgoing?
      && (forall i | 0 <= i < |s.answers| :: s.answers[i].place != InChannel(s.answers[answer].place.channel))
    case Takes(request, answer) =>
      request in s.requests && s.requests[request].progress.Waiting? && At(s, answer, InChannel(request))
    case TimesOut(request) => request in s.requests && s.requests[request].progress.Waiting?
    case Admits(request) => request in s.requests && s.requests[request].progress.Accepted?
    case Rejects(request) => request in s.requests && s.requests[request].progress.Refused?
    case CleansUp(request) => request in s.requests && s.requests[request].progress.Done?
  }

  function MoveTo(s: State, answer: nat, place: Place): State {
    if answer < |s.answers| then s.(answers := s.answers[answer := s.answers[answer].(place := place)]) else s
  }

  function Progressed(s: State, request: nat, progress: Progress): State
    requires request in s.requests
  {
    s.(requests := s.requests[request := s.requests[request].(progress := progress)])
  }

  /** The channel registered for a peer, or nowhere. */
  function Towards(d: Desk, peer: PeerId): Place {
    if peer in d.approvals then Outgoing(d.approvals[peer]) else Lost
  }

  ghost function Step(s: State, ev: Event): State
    requires Enabled(s, ev)
  {
    match ev
    case Arrives(request, peer) =>
      s.(desk := Register(s.desk, peer, request), owners := s.owners[request := peer],
         requests := s.requests[request := Request(peer, s.desk.nextNumber + 1, Waiting)])
    case AnsweredByPeer(peer, accepted) =>
      s.(answers := s.answers + [Answer(peer, accepted, Towards(s.desk, peer))])
    case AnsweredByNumber(number, accepted) =>
      if number !in s.desk.numbers then s
      else s.(answers := s.answers + [Answer(s.desk.numbers[number], accepted, Resolved)])
    case Resolves(answer) => MoveTo(s, answer, Towards(s.desk, s.answers[answer].peer))
    case Enters(answer) => MoveTo(s, answer, InChannel(s.answers[answer].place.channel))
    case Takes(request, answer) =>
      Progressed(MoveTo(s, answer, Taken(request)), request,
                 if s.answers[answer].accepted then Accepted(answer) else Refused)
    case TimesOut(request) => Progressed(s, request, Refused)
    case Admits(request) =>
      var why := s.requests[request].progress.why;
      var t := Progressed(MoveTo(s, why, Used(|s.admissions|)), request, Done);
      t.(admissions := s.admissions + [Admission(s.requests[request].peer, why)])
    case Rejects(request) => Progressed(s, request, Done)
    case CleansUp(request) =>
      var r := s.requests[request];
      s.(desk := Unregister(s.desk, r.peer, r.number), requests := s.requests - {request})
  }

  /** Each outstanding request holds a number of its own, in range, that leads to its peer. */
  ghost predicate NumbersOk(s: State) {
    && (forall r | r in s.requests ::
          && r in s.owners && s.owners[r] == s.requests[r].peer
          && 1 <= s.requests[r].number <= s.desk.nextNumber
          && s.requests[r].number in s.desk.numbers && s.desk.numbers[s.requests[r].number] == s.requests[r].peer)
    && (forall r, q | r in s.requests && q in s.requests && r != q :: s.requests[r].number != s.requests[q].number)
  }

  ghost predicate HasHolder(s: State, n: nat) {
    exists r | r in s.requests :: s.requests[r].number == n
  }

  /** Every number on the desk is held by an outstanding request. */
  ghost predicate NothingElse(s: State) {
    forall n | n in s.desk.numbers :: HasHolder(s, n)
  }

  /** The channel registered for a peer is that of an outstanding request of that peer. */
  ghost predicate ChannelsOk(s: State) {
    forall p | p in s.desk.approvals :: s.desk.approvals[p] in s.requests && s.requests[s.desk.approvals[p]].peer == p
  }

  /** When no number is out, the numbering starts again. */
  predicate StartsAgain(s: State) {
    s.desk.numbers == map[] ==> s.desk.nextNumber == 0
  }

  ghost predicate DeskOk(s: State) {
    NumbersOk(s) && NothingElse(s) && ChannelsOk(s) && StartsAgain(s)
  }

  /** An answer is only ever on its way to a request of the peer that it is addressed to. */
  ghost predicate AnswerOk(s: State, i: nat)
    requires i < |s.answers|
  {
    var a := s.answers[i];
    match a.place
    case Outgoing(c) => c in s.owners && s.owners[c] == a.peer
    case InChannel(c) => c in s.owners && s.owners[c] == a.peer
    case Taken(r) => r in s.owners && s.owners[r] == a.peer
    case Used(k) => k < |s.admissions| && s.admissions[k] == Admission(a.peer, i) && a.accepted
    case _ => true
  }

  ghost predicate DecisionOk(s: State, r: nat)
    requires r in s.requests
  {
    var progress := s.requests[r].progress;
    progress.Accepted? ==>
      && At(s, progress.why, Taken(r))
      && s.answers[progress.why].accepted && s.answers[progress.why].peer == s.requests[r].peer
  }

  ghost predicate AdmissionOk(s: State, k: nat)
    requires k < |s.admissions|
  {
    var why := s.admissions[k].why;
    At(s, why, Used(k)) && s.answers[why].accepted && s.answers[why].peer == s.admissions[k].peer
  }

  ghost predicate Inv(s: State) {
    && DeskOk(s)
    && (forall i | 0 <= i < |s.answers| :: AnswerOk(s, i))
    && (forall r | r in s.requests :: DecisionOk(s, r))
    && (forall k | 0 <= k < |s.admissions| :: AdmissionOk(s, k))
  }

  lemma ArrivalKeepsNumbers(s: State, request: nat, peer: PeerId)
    requires NumbersOk(s) && Enabled(s, Arrives(request, peer))
    ensures NumbersOk(Step(s, Arrives(request, peer)))
  {
  }

  lemma ArrivalKeepsHolders(s: State, request: nat, peer: PeerId)
    requires DeskOk(s) && Enabled(s, Arrives(request, peer))
    ensures NothingElse(Step(s, Arrives(request, peer))) && ChannelsOk(Step(s, Arrives(request, peer)))
    ensures StartsAgain(Step(s, Arrives(request, peer)))
  {
    var t := Step(s, Arrives(request, peer));
    assert s.desk.nextNumber + 1 in t.desk.numbers;
    forall n | n in t.desk.numbers ensures HasHolder(t, n) {
      if n == s.desk.nextNumber + 1 {
        assert t.requests[request].number == n;
      } else {
        HolderStays(s, t, n);
      }
    }
  }

  lemma HolderStays(s: State, t: State, n: nat)
    requires HasHolder(s, n)
    requires forall r | r in s.requests && s.requests[r].number == n :: r in t.requests && t.requests[r].number == n
    ensures HasHolder(t, n)
  {
    var r :| r in s.requests && s.requests[r].number == n;
    assert r in t.requests;
  }

  lemma ArrivalKeepsInv(s: State, request: nat, peer: PeerId)
    requires Inv(s) && Enabled(s, Arrives(request, peer))
    ensures Inv(Step(s, Arrives(request, peer)))
  {
    var t := Step(s, Arrives(request, peer));
    ArrivalKeepsNumbers(s, request, peer);
    ArrivalKeepsHolders(s, request, peer);
    forall i | 0 <= i < |t.answers| ensures AnswerOk(t, i) {
      assert AnswerOk(s, i);
    }
    forall r | r in t.requests ensures DecisionOk(t, r) {
      assert r != request ==> DecisionOk(s, r);
    }
    forall k | 0 <= k < |t.admissions| ensures AdmissionOk(t, k) {
      assert AdmissionOk(s, k);
    }
  }

  lemma AnswerKeepsInv(s: State, ev: Event)
    requires Inv(s) && Enabled(s, ev) && (ev.AnsweredByPeer? || ev.AnsweredByNumber?)
    ensures Inv(Step(s, ev))
  {
    var t := Step(s, ev);
    forall i | 0 <= i < |t.answers| ensures AnswerOk(t, i) {
      assert i < |s.answers| ==> AnswerOk(s, i);
    }
    forall r | r in t.requests ensures DecisionOk(t, r) {
      assert DecisionOk(s, r);
    }
    forall k | 0 <= k < |t.admissions| ensures AdmissionOk(t, k) {
      assert AdmissionOk(s, k);
    }
  }

  lemma MoveKeepsInv(s: State, ev: Event)
    requires Inv(s) && Enabled(s, ev) && (ev.Resolves? || ev.Enters?)
    ensures Inv(Step(s, ev))
  {
    var t := Step(s, ev);
    forall i | 0 <= i < |t.answers| ensures AnswerOk(t, i) {
      assert AnswerOk(s, i);
    }
    forall r | r in t.requests ensures DecisionOk(t, r) {
      assert DecisionOk(s, r);
    }
    forall k | 0 <= k < |t.admissions| ensures AdmissionOk(t, k) {
      assert AdmissionOk(s, k);
    }
  }

  lemma TakeKeepsAnswers(s: State, request: nat, answer: nat, i: nat)
    requires Inv(s) && Enabled(s, Takes(request, answer)) && i < |s.answers|
    ensures i < |Step(s, Takes(request, answer)).answers| && AnswerOk(Step(s, Takes(request, answer)), i)
  {
    assert AnswerOk(s, i) && AnswerOk(s, answer);
  }

  lemma TakeKeepsDecisions(s: State, request: nat, answer: nat, r: nat)
    requires Inv(s) && Enabled(s, Takes(request, answer)) && r in s.requests
    ensures r in Step(s, Takes(request, answer)).requests && DecisionOk(Step(s, Takes(request, answer)), r)
  {
    assert DecisionOk(s, r) && AnswerOk(s, answer);
  }

  lemma TakeKeepsInv(s: State, request: nat, answer: nat)
    requires Inv(s) && Enabled(s, Takes(request, answer))
    ensures Inv(Step(s, Takes(request, answer)))
  {
    var t := Step(s, Takes(request, answer));
    forall i | 0 <= i < |t.answers| ensures AnswerOk(t, i) {
      TakeKeepsAnswers(s, request, answer, i);
    }
    forall r | r in t.requests ensures DecisionOk(t, r) {
      TakeKeepsDecisions(s, request, answer, r);
    }
    forall k | 0 <= k < |t.admissions| ensures AdmissionOk(t, k) {
      assert AdmissionOk(s, k);
    }
    ProgressKeepsDesk(s, t, request);
  }

  /** Only the progress of one request differs. */
  ghost predicate SameButProgress(s: State, t: State, request: nat) {
    && t.desk == s.desk && t.owners == s.owners && request in s.requests && request in t.requests
    && t.requests == s.requests[request := s.requests[request].(progress := t.requests[request].progress)]
  }

  lemma ProgressKeepsNumbers(s: State, t: State, request: nat)
    requires NumbersOk(s) && SameButProgress(s, t, request)
    ensures NumbersOk(t)
  {
  }

  lemma ProgressKeepsChannels(s: State, t: State, request: nat)
    requires ChannelsOk(s) && SameButProgress(s, t, request)
    ensures ChannelsOk(t)
  {
  }

  lemma ProgressKeepsHolders(s: State, t: State, request: nat)
    requires NothingElse(s) && SameButProgress(s, t, request)
    ensures NothingElse(t)
  {
    forall n | n in t.desk.numbers ensures HasHolder(t, n) {
      HolderStays(s, t, n);
    }
  }

  /** Moving a request on changes neither who it is nor its number. */
  lemma ProgressKeepsDesk(s: State, t: State, request: nat)
    requires DeskOk(s) && SameButProgress(s, t, request)
    ensures DeskOk(t)
  {
    ProgressKeepsNumbers(s, t, request);
    ProgressKeepsChannels(s, t, request);
    ProgressKeepsHolders(s, t, request);
  }

  lemma DecisionKeepsInv(s: State, ev: Event)
    requires Inv(s) && Enabled(s, ev) && (ev.TimesOut? || ev.Rejects?)
    ensures Inv(Step(s, ev))
  {
    var t := Step(s, ev);
    forall i | 0 <= i < |t.answers| ensures AnswerOk(t, i) {
      assert AnswerOk(s, i);
    }
    forall r | r in t.requests ensures DecisionOk(t, r) {
      assert DecisionOk(s, r);
    }
    forall k | 0 <= k < |t.admissions| ensures AdmissionOk(t, k) {
      assert AdmissionOk(s, k);
    }
    ProgressKeepsDesk(s, t, ev.request);
  }

  lemma AdmissionKeepsInv(s: State, request: nat)
    requires Inv(s) && Enabled(s, Admits(request))
    ensures Inv(Step(s, Admits(request)))
  {
    var t := Step(s, Admits(request));
    assert DecisionOk(s, request);
    forall i | 0 <= i < |t.answers| ensures AnswerOk(t, i) {
      assert AnswerOk(s, i);
    }
    forall r | r in t.requests ensures DecisionOk(t, r) {
      assert DecisionOk(s, r);
    }
    forall k | 0 <= k < |t.admissions| ensures AdmissionOk(t, k) {
      assert k < |s.admissions| ==> AdmissionOk(s, k);
    }
    ProgressKeepsDesk(s, t, request);
  }

  lemma CleanupKeepsNumbers(s: State, request: nat)
    requires NumbersOk(s) && Enabled(s, CleansUp(request))
    ensures NumbersOk(Step(s, CleansUp(request)))
  {
    var t := Step(s, CleansUp(request));
    forall r | r in t.requests ensures t.requests[r].number in t.desk.numbers && |t.desk.numbers| != 0 {
      assert s.requests[r].number != s.requests[request].number;
    }
  }

  lemma CleanupKeepsHolders(s: State, request: nat)
    requires DeskOk(s) && Enabled(s, CleansUp(request))
    ensures NothingElse(Step(s, CleansUp(request)))
  {
    var t := Step(s, CleansUp(request));
    forall n | n in t.desk.numbers ensures HasHolder(t, n) {
      assert n != s.requests[request].number && HasHolder(s, n);
      HolderStays(s, t, n);
    }
  }

  lemma CleanupKeepsChannels(s: State, request: nat)
    requires ChannelsOk(s) && Enabled(s, CleansUp(request))
    ensures ChannelsOk(Step(s, CleansUp(request))) && StartsAgain(Step(s, CleansUp(request)))
  {
  }

  lemma CleanupKeepsInv(s: State, request: nat)
    requires Inv(s) && Enabled(s, CleansUp(request))
    ensures Inv(Step(s, CleansUp(request)))
  {
    var t := Step(s, CleansUp(request));
    CleanupKeepsNumbers(s, request);
    CleanupKeepsHolders(s, request);
    CleanupKeepsChannels(s, request);
    forall i | 0 <= i < |t.answers| ensures AnswerOk(t, i) {
      assert AnswerOk(s, i);
    }
    forall r | r in t.requests ensures DecisionOk(t, r) {
      assert DecisionOk(s, r);
    }
    forall k | 0 <= k < |t.admissions| ensures AdmissionOk(t, k) {
      assert AdmissionOk(s, k);
    }
  }

  lemma StepKeepsInv(s: State, ev: Event)
    requires Inv(s) && Enabled(s, ev)
    ensures Inv(Step(s, ev))
  {
    match ev
    case Arrives(request, peer) => ArrivalKeepsInv(s, request, peer);
    case AnsweredByPeer(_, _) => AnswerKeepsInv(s, ev);
    case AnsweredByNumber(_, _) => AnswerKeepsInv(s, ev);
    case Resolves(_) => MoveKeepsInv(s, ev);
    case Enters(_) => MoveKeepsInv(s, ev);
    case Takes(request, answer) => TakeKeepsInv(s, request, answer);
    case TimesOut(_) => DecisionKeepsInv(s, ev);
    case Admits(request) => AdmissionKeepsInv(s, request);
    case Rejects(_) => DecisionKeepsInv(s, ev);
    case CleansUp(request) => CleanupKeepsInv(s, request);
  }

  lemma {:induction false} RunKeepsInv(s: State, run: seq<Event>)
    requires Inv(s) && Legal(Step, s, run)
    ensures Inv(Run(Step, s, run))
    decreases |run|
  {
    if run != [] {
      StepKeepsInv(s, run[0]);
      RunKeepsInv(Step(s, run[0]), run[1..]);
    }
  }

  /** In every interleaving of requests, answers, timeouts and cleanups, outstanding numbers are distinct, within
      1..nextNumber, and exactly the ones on the desk, where each leads to its peer. So starting the numbering again,
      which happens whenever no request is left, cannot hand out a number that is in use. And a registered channel
      belongs to an outstanding request of that peer. */
  lemma NumbersAreSafe(run: seq<Event>)
    requires Legal(Step, FRESH, run)
    ensures
      var s := Run(Step, FRESH, run);
      && (forall r | r in s.requests ::
            && 1 <= s.requests[r].number <= s.desk.nextNumber
            && s.requests[r].number in s.desk.numbers && s.desk.numbers[s.requests[r].number] == s.requests[r].peer)
      && (forall r, q | r in s.requests && q in s.requests && r != q :: s.requests[r].number != s.requests[q].number)
      && (forall n | n in s.desk.numbers :: HasHolder(s, n))
      && (forall p | p in s.desk.approvals ::
            s.desk.approvals[p] in s.requests && s.requests[s.desk.approvals[p]].peer == p)
      && (s.requests == map[] ==> s.desk == Desk(0, map[], map[]))
  {
    RunKeepsInv(FRESH, run);
    var s := Run(Step, FRESH, run);
    if s.requests == map[] {
      forall n ensures n !in s.desk.numbers {
        assert n in s.desk.numbers ==> HasHolder(s, n);
      }
      assert s.desk.numbers == map[] && s.desk.approvals == map[];
    }
  }

  // Which request an answer reaches. A later request of the same peer takes over the registration, and the cleanup of
  // any request of that peer drops it.

  predicate Registered(s: State, peer: PeerId, request: nat) {
    peer in s.desk.approvals && s.desk.approvals[peer] == request
  }

  /** The event registers or cleans up a request of this peer. */
  predicate Disturbs(s: State, ev: Event, peer: PeerId) {
    || (ev.Arrives? && ev.peer == peer)
    || (ev.CleansUp? && ev.request in s.requests && s.requests[ev.request].peer == peer)
  }

  ghost predicate Undisturbed(s: State, run: seq<Event>, peer: PeerId)
    requires Legal(Step, s, run)
    decreases |run|
  {
    run == [] || (!Disturbs(s, run[0], peer) && Undisturbed(Step(s, run[0]), run[1..], peer))
  }

  lemma StepKeepsOwner(s: State, ev: Event, request: nat)
    requires Enabled(s, ev) && request in s.owners
    ensures request in Step(s, ev).owners && Step(s, ev).owners[request] == s.owners[request]
  {
  }

  lemma StepRegistration(s: State, ev: Event, peer: PeerId, request: nat)
    requires Enabled(s, ev) && request in s.owners
    ensures Registered(Step(s, ev), peer, request) <==> Registered(s, peer, request) && !Disturbs(s, ev, peer)
  {
    if !ev.Arrives? && !ev.CleansUp? {
      DeskStays(s, ev);
    }
  }

  lemma DeskStays(s: State, ev: Event)
    requires Enabled(s, ev) && !ev.Arrives? && !ev.CleansUp?
    ensures Step(s, ev).desk == s.desk
  {
  }

  /** A registration that was lost is not regained. */
  lemma {:induction false} LostStaysLost(s: State, run: seq<Event>, peer: PeerId, request: nat)
    requires Legal(Step, s, run) && request in s.owners && !Registered(s, peer, request)
    ensures !Registered(Run(Step, s, run), peer, request)
    decreases |run|
  {
    if run != [] {
      StepKeepsOwner(s, run[0], request);
      StepRegistration(s, run[0], peer, request);
      LostStaysLost(Step(s, run[0]), run[1..], peer, request);
    }
  }

  /** A request keeps its registration over a run exactly as long as no other request of its peer registers and none
      is cleaned up. */
  lemma {:induction false} RegisteredExactly(s: State, run: seq<Event>, peer: PeerId, request: nat)
    requires Legal(Step, s, run) && request in s.owners && Registered(s, peer, request)
    ensures Registered(Run(Step, s, run), peer, request) <==> Undisturbed(s, run, peer)
    decreases |run|
  {
    if run != [] {
      var t := Step(s, run[0]);
      StepKeepsOwner(s, run[0], request);
      StepRegistration(s, run[0], peer, request);
      if Registered(t, peer, request) {
        RegisteredExactly(t, run[1..], peer, request);
      } else {
        LostStaysLost(t, run[1..], peer, request);
      }
    }
  }

  lemma {:induction false} RequestKeepsNumber(s: State, run: seq<Event>, request: nat)
    requires Legal(Step, s, run) && request in s.requests && request in s.owners
    ensures
      var t := Run(Step, s, run);
      && request in t.owners
      && (request in t.requests ==>
            t.requests[request].number == s.requests[request].number &&
            t.requests[request].peer == s.requests[request].peer)
    decreases |run|
  {
    if run != [] {
      var t := Step(s, run[0]);
      StepKeepsOwner(s, run[0], request);
      if request in t.requests {
        RequestKeepsNumber(t, run[1..], request);
      } else {
        GoneStaysGone(t, run[1..], request);
      }
    }
  }

  lemma {:induction false} GoneStaysGone(s: State, run: seq<Event>, request: nat)
    requires Legal(Step, s, run) && request in s.owners && request !in s.requests
    ensures request !in Run(Step, s, run).requests && request in Run(Step, s, run).owners
    decreases |run|
  {
    if run != [] {
      StepKeepsOwner(s, run[0], request);
      GoneStaysGone(Step(s, run[0]), run[1..], request);
    }
  }

  lemma {:induction false} AnswersStay(s: State, run: seq<Event>, i: nat)
    requires Legal(Step, s, run) && i < |s.answers|
    ensures i < |Run(Step, s, run).answers| && Run(Step, s, run).answers[i].peer == s.answers[i].peer
    decreases |run|
  {
    if run != [] {
      AnswersStay(Step(s, run[0]), run[1..], i);
    }
  }

  /** An answer by the number of an outstanding request is addressed to the peer of that request. */
  lemma AnswerIsAddressed(s: State, request: nat, accepted: bool)
    requires NumbersOk(s) && request in s.requests
    ensures
      var r := s.requests[request];
      Step(s, AnsweredByNumber(r.number, accepted)).answers == s.answers + [Answer(r.peer, accepted, Resolved)]
  {
  }

  lemma LookupReaches(s: State, answer: nat, request: nat)
    requires At(s, answer, Resolved)
    ensures At(Step(s, Resolves(answer)), answer, Outgoing(request)) <==> Registered(s, s.answers[answer].peer, request)
  {
  }

  /** An answer by number reaches the request that holds the number if and only if, from the registration of that
      request to the moment the channel is looked up, no other request of the same peer is registered and none is
      cleaned up. Otherwise it goes to another request of that peer, or nowhere. */
  lemma AnswerReachesItsNumber(s: State, request: nat, first: seq<Event>, accepted: bool, second: seq<Event>)
    requires Inv(s) && request in s.requests && Registered(s, s.requests[request].peer, request)
    requires Legal(Step, s, first) && request in Run(Step, s, first).requests
    requires
      var asked := AnsweredByNumber(s.requests[request].number, accepted);
      Legal(Step, Step(Run(Step, s, first), asked), second)
    ensures
      var peer := s.requests[request].peer;
      var middle := Run(Step, s, first);
      var u := Step(middle, AnsweredByNumber(s.requests[request].number, accepted));
      var t := Run(Step, u, second);
      var answer := |middle.answers|;
      At(t, answer, Resolved) ==>
        (At(Step(t, Resolves(answer)), answer, Outgoing(request)) <==>
         Undisturbed(s, first, peer) && Undisturbed(u, second, peer))
  {
    var peer := s.requests[request].peer;
    var middle := Run(Step, s, first);
    var ev := AnsweredByNumber(s.requests[request].number, accepted);
    var u := Step(middle, ev);
    var t := Run(Step, u, second);
    RunKeepsInv(s, first);
    RequestKeepsNumber(s, first, request);
    AnswerIsAddressed(middle, request, accepted);
    AnswersStay(u, second, |middle.answers|);
    RegisteredExactly(s, first, peer, request);
    StepRegistration(middle, ev, peer, request);
    if Registered(u, peer, request) {
      RegisteredExactly(u, second, peer, request);
    } else {
      LostStaysLost(u, second, peer, request);
    }
    if At(t, |middle.answers|, Resolved) {
      LookupReaches(t, |middle.answers|, request);
    }
  }

  /** A request without a registration, and with no answer on the way to it. */
  ghost predicate Abandoned(s: State, request: nat) {
    && request in s.owners && !Registered(s, s.owners[request], request) && Unanswered(s, request)
    && (request in s.requests ==> !s.requests[request].progress.Accepted?)
  }

  /** No answer is on the way to the request. */
  ghost predicate Unanswered(s: State, request: nat) {
    forall i | 0 <= i < |s.answers| ::
      s.answers[i].place != Outgoing(request) && s.answers[i].place != InChannel(request)
  }

  lemma UnregisteredEverywhere(s: State, request: nat)
    requires Inv(s) && Abandoned(s, request)
    ensures forall p | p in s.desk.approvals :: s.desk.approvals[p] != request
  {
  }

  lemma UnansweredStep(s: State, ev: Event, request: nat)
    requires Enabled(s, ev) && Unanswered(s, request)
    requires forall p | p in s.desk.approvals :: s.desk.approvals[p] != request
    ensures Unanswered(Step(s, ev), request)
  {
  }

  lemma UnacceptedStep(s: State, ev: Event, request: nat)
    requires Enabled(s, ev) && Unanswered(s, request)
    requires request in s.owners && (request in s.requests ==> !s.requests[request].progress.Accepted?)
    ensures ev != Admits(request)
    ensures request in Step(s, ev).requests ==> !Step(s, ev).requests[request].progress.Accepted?
  {
  }

  lemma AbandonedStep(s: State, ev: Event, request: nat)
    requires Inv(s) && Enabled(s, ev) && Abandoned(s, request)
    ensures Abandoned(Step(s, ev), request) && ev != Admits(request)
  {
    StepKeepsOwner(s, ev, request);
    StepRegistration(s, ev, s.owners[request], request);
    UnregisteredEverywhere(s, request);
    UnansweredStep(s, ev, request);
    UnacceptedStep(s, ev, request);
  }

  /** Such a request can only time out: no run admits it, whatever is answered. */
  lemma {:induction false} AbandonedIsNeverAdmitted(s: State, run: seq<Event>, request: nat)
    requires Inv(s) && Legal(Step, s, run) && Abandoned(s, request)
    ensures Abandoned(Run(Step, s, run), request)
    ensures forall i | 0 <= i < |run| :: run[i] != Admits(request)
    decreases |run|
  {
    if run != [] {
      AbandonedStep(s, run[0], request);
      StepKeepsInv(s, run[0]);
      AbandonedIsNeverAdmitted(Step(s, run[0]), run[1..], request);
    }
  }

  lemma More(run: seq<Event>, s: State, ev: Event)
    requires Legal(Step, FRESH, run) && Run(Step, FRESH, run) == s && Enabled(s, ev)
    ensures Legal(Step, FRESH, run + [ev]) && Run(Step, FRESH, run + [ev]) == Step(s, ev)
  {
    Then(Step, FRESH, run, ev);
  }

  lemma TwoRequests(peer: PeerId) returns (run: seq<Event>)
    ensures Legal(Step, FRESH, run)
    ensures
      Run(Step, FRESH, run) ==
        State(Desk(2, map[peer := 1], map[1 := peer, 2 := peer]),
              map[0 := Request(peer, 1, Waiting), 1 := Request(peer, 2, Waiting)], map[0 := peer, 1 := peer], [], [])
  {
    More([], FRESH, Arrives(0, peer));
    var s := Step(FRESH, Arrives(0, peer));
    More([] + [Arrives(0, peer)], s, Arrives(1, peer));
    run := [] + [Arrives(0, peer)] + [Arrives(1, peer)];
    assert Step(s, Arrives(1, peer)).desk.approvals == map[peer := 1];
  }

  /** An answer for number 1 enters the channel of the request that holds number 2. */
  lemma AnswerForOne(peer: PeerId) returns (run: seq<Event>)
    ensures Legal(Step, FRESH, run) && AnsweredByNumber(1, true) in run
    ensures
      Run(Step, FRESH, run) ==
        State(Desk(2, map[peer := 1], map[1 := peer, 2 := peer]),
              map[0 := Request(peer, 1, Waiting), 1 := Request(peer, 2, Waiting)], map[0 := peer, 1 := peer],
              [Answer(peer, true, InChannel(1))], [])
  {
    var two := TwoRequests(peer);
    var s := Run(Step, FRESH, two);
    var ask := AnsweredByNumber(1, true);
    More(two, s, ask);
    var s1 := Step(s, ask);
    More(two + [ask], s1, Resolves(0));
    var s2 := Step(s1, Resolves(0));
    More(two + [ask] + [Resolves(0)], s2, Enters(0));
    run := two + [ask] + [Resolves(0)] + [Enters(0)];
    assert run[|two|] == ask;
  }

  /** A trace. Two streams of one peer are waiting, as numbers 1 and 2. Number 1 is accepted, and the stream that waits
      as number 2 is admitted; number 1 is abandoned. */
  lemma AnswerGoesAstray(peer: PeerId) returns (run: seq<Event>)
    ensures Legal(Step, FRESH, run) && AnsweredByNumber(1, true) in run
    ensures
      var s := Run(Step, FRESH, run);
      && s.admissions == [Admission(peer, 0)]
      && s.requests == map[0 := Request(peer, 1, Waiting), 1 := Request(peer, 2, Done)]
      && Abandoned(s, 0)
  {
    var before := AnswerForOne(peer);
    var s := Run(Step, FRESH, before);
    More(before, s, Takes(1, 0));
    var s1 := Step(s, Takes(1, 0));
    More(before + [Takes(1, 0)], s1, Admits(1));
    run := before + [Takes(1, 0)] + [Admits(1)];
  }
}
