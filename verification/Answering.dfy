/** Why streams are admitted and rejected: the answers given in a run, event by event, and what they decide. */
module Answering {
  import opened Runs
  import opened Approvals

  lemma {:induction false} LegalPrefix(s: State, run: seq<Event>, n: nat)
    requires Legal(Step, s, run) && n <= |run|
    ensures Legal(Step, s, run[..n])
    ensures n < |run| ==> Enabled(Run(Step, s, run[..n]), run[n])
    decreases n
  {
    if n > 0 {
      LegalPrefix(Step(s, run[0]), run[1..], n - 1);
      assert run[..n][1..] == run[1..][..n - 1];
    }
  }

  ghost predicate Reachable(run: seq<Event>, s: State) {
    Legal(Step, FRESH, run) && Run(Step, FRESH, run) == s
  }

  /** The state before the last event of a run. */
  lemma BeforeLast(run: seq<Event>) returns (s: State)
    requires run != [] && Legal(Step, FRESH, run)
    ensures
      var n := |run| - 1;
      Reachable(run[..n], s) && Inv(s) && Enabled(s, run[n]) && Reachable(run, Step(s, run[n]))
  {
    var n := |run| - 1;
    LegalPrefix(FRESH, run, n);
    s := Run(Step, FRESH, run[..n]);
    RunKeepsInv(FRESH, run[..n]);
    Then(Step, FRESH, run[..n], run[n]);
    assert run == run[..n] + [run[n]];
  }

  /** The event at place `i` gives this answer to this peer: by its id, or by a number that leads to it then. */
  ghost predicate Answers(run: seq<Event>, i: nat, peer: PeerId, accepted: bool) {
    && i < |run| && Legal(Step, FRESH, run[..i])
    && match run[i]
       case AnsweredByPeer(p, a) => p == peer && a == accepted
       case AnsweredByNumber(number, a) =>
         var numbers := Run(Step, FRESH, run[..i]).desk.numbers;
         number in numbers && numbers[number] == peer && a == accepted
       case _ => false
  }

  /** Before place `j`, the request arrived as a stream of this peer. */
  ghost predicate ArrivedFrom(run: seq<Event>, j: nat, request: nat, peer: PeerId) {
    exists h | 0 <= h < j :: h < |run| && run[h] == Arrives(request, peer)
  }

  lemma AnswersInPrefix(run: seq<Event>, n: nat, i: nat, peer: PeerId, accepted: bool)
    requires i < n <= |run|
    ensures Answers(run[..n], i, peer, accepted) <==> Answers(run, i, peer, accepted)
  {
    assert run[..n][..i] == run[..i];
  }

  /** Where in the run each recorded answer was given. */
  ghost predicate Asked(run: seq<Event>, s: State, asked: seq<nat>) {
    && |asked| == |s.answers|
    && (forall a | 0 <= a < |asked| :: Answers(run, asked[a], s.answers[a].peer, s.answers[a].accepted))
    && (forall a, b | 0 <= a < b < |asked| :: asked[a] < asked[b])
  }

  lemma StepKeepsAnswers(s: State, ev: Event)
    requires Inv(s) && Enabled(s, ev)
    ensures |s.answers| <= |Step(s, ev).answers| <= |s.answers| + 1
    ensures forall a | 0 <= a < |s.answers| ::
              && Step(s, ev).answers[a].peer == s.answers[a].peer
              && Step(s, ev).answers[a].accepted == s.answers[a].accepted
  {
  }

  lemma AskedBefore(run: seq<Event>, s: State, asked: seq<nat>, a: nat)
    requires run != [] && Asked(run[..|run| - 1], s, asked) && a < |asked|
    ensures asked[a] < |run| - 1 && Answers(run, asked[a], s.answers[a].peer, s.answers[a].accepted)
  {
    AnswersInPrefix(run, |run| - 1, asked[a], s.answers[a].peer, s.answers[a].accepted);
  }

  /** The record of one more event, which adds an answer or not and changes none. */
  lemma AskedMore(run: seq<Event>, s: State, t: State, asked: seq<nat>, more: seq<nat>)
    requires run != [] && Asked(run[..|run| - 1], s, asked)
    requires |s.answers| <= |t.answers| <= |s.answers| + 1
    requires forall a | 0 <= a < |s.answers| ::
               t.answers[a].peer == s.answers[a].peer && t.answers[a].accepted == s.answers[a].accepted
    requires more == if |t.answers| == |s.answers| then asked else asked + [|run| - 1]
    requires |t.answers| != |s.answers| ==>
               Answers(run, |run| - 1, t.answers[|s.answers|].peer, t.answers[|s.answers|].accepted)
    ensures Asked(run, t, more) && asked <= more
  {
    forall a | 0 <= a < |asked|
      ensures asked[a] < |run| - 1 && Answers(run, asked[a], s.answers[a].peer, s.answers[a].accepted)
    {
      AskedBefore(run, s, asked, a);
    }
  }

  lemma AskedStep(run: seq<Event>, s: State, asked: seq<nat>) returns (more: seq<nat>)
    requires run != [] && Reachable(run[..|run| - 1], s) && Inv(s) && Enabled(s, run[|run| - 1])
    requires Asked(run[..|run| - 1], s, asked)
    ensures Asked(run, Step(s, run[|run| - 1]), more) && asked <= more
  {
    var n := |run| - 1;
    var t := Step(s, run[n]);
    StepKeepsAnswers(s, run[n]);
    more := if |t.answers| == |s.answers| then asked else asked + [n];
    if |t.answers| != |s.answers| {
      NewAnswer(run, s);
    }
    AskedMore(run, s, t, asked, more);
  }

  lemma NewAnswer(run: seq<Event>, s: State)
    requires run != [] && Reachable(run[..|run| - 1], s) && Enabled(s, run[|run| - 1])
    requires |Step(s, run[|run| - 1]).answers| != |s.answers|
    ensures
      var n := |run| - 1;
      var given := Step(s, run[n]).answers;
      |given| == |s.answers| + 1 && Answers(run, n, given[|s.answers|].peer, given[|s.answers|].accepted)
  {
  }

  /** Every request arrived from its peer. */
  ghost predicate Owned(run: seq<Event>, s: State) {
    forall r | r in s.owners :: ArrivedFrom(run, |run|, r, s.owners[r])
  }

  lemma OwnedStep(run: seq<Event>, s: State)
    requires run != [] && Enabled(s, run[|run| - 1]) && Owned(run[..|run| - 1], s)
    ensures Owned(run, Step(s, run[|run| - 1]))
  {
    var n := |run| - 1;
    var t := Step(s, run[n]);
    forall r | r in t.owners ensures ArrivedFrom(run, |run|, r, t.owners[r]) {
      if r in s.owners && !(run[n].Arrives? && run[n].request == r) {
        assert ArrivedFrom(run[..n], n, r, s.owners[r]);
        var h :| 0 <= h < n && run[..n][h] == Arrives(r, s.owners[r]);
        assert run[h] == Arrives(r, t.owners[r]);
      } else {
        assert run[n] == Arrives(r, t.owners[r]);
      }
    }
  }

  ghost predicate IsUsed(s: State, asked: seq<nat>, i: nat)
    requires |asked| == |s.answers|
  {
    exists a | 0 <= a < |asked| :: asked[a] == i && s.answers[a].place.Used?
  }

  /** The admission at place `j` goes back to the answer at place `i`. */
  ghost predicate Explains(run: seq<Event>, j: nat, i: nat)
    requires j < |run| && run[j].Admits?
  {
    i < j && exists peer :: ArrivedFrom(run, j, run[j].request, peer) && Answers(run, i, peer, true)
  }

  /** For each admission the place of the answer that it goes back to. Different admissions have different ones. */
  ghost predicate Justifies(run: seq<Event>, source: seq<nat>) {
    && |source| == |run|
    && (forall j | 0 <= j < |run| && run[j].Admits? :: Explains(run, j, source[j]))
    && (forall i, j | 0 <= i < j < |run| && run[i].Admits? && run[j].Admits? :: source[i] != source[j])
  }

  ghost predicate Sourced(run: seq<Event>, s: State, asked: seq<nat>, source: seq<nat>) {
    && Justifies(run, source) && |asked| == |s.answers|
    && forall j | 0 <= j < |run| && run[j].Admits? :: IsUsed(s, asked, source[j])
  }

  lemma ExplainsInPrefix(run: seq<Event>, n: nat, j: nat, i: nat)
    requires j < n <= |run| && run[j].Admits? && Explains(run[..n], j, i)
    ensures Explains(run, j, i)
  {
    var peer :| ArrivedFrom(run[..n], j, run[j].request, peer) && Answers(run[..n], i, peer, true);
    AnswersInPrefix(run, n, i, peer, true);
    var h :| 0 <= h < j && run[..n][h] == Arrives(run[j].request, peer);
    assert run[h] == Arrives(run[j].request, peer);
  }

  /** An answer that was used stays so. */
  lemma UsedStays(s: State, ev: Event, asked: seq<nat>, more: seq<nat>, i: nat)
    requires Inv(s) && Enabled(s, ev) && |asked| == |s.answers| && |more| == |Step(s, ev).answers| && asked <= more
    requires IsUsed(s, asked, i)
    ensures IsUsed(Step(s, ev), more, i)
  {
    var a :| 0 <= a < |asked| && asked[a] == i && s.answers[a].place.Used?;
    if ev.Admits? {
      assert DecisionOk(s, ev.request);
    }
    StepKeepsAnswers(s, ev);
    assert Step(s, ev).answers[a].place.Used? && more[a] == i;
  }

  /** The answer behind an admission: true, addressed to the peer of the request, and not used before. */
  lemma WhyAdmitted(s: State, request: nat)
    requires Inv(s) && Enabled(s, Admits(request))
    ensures
      var why := s.requests[request].progress.why;
      && request in s.owners && At(s, why, Taken(request))
      && s.answers[why].accepted && s.answers[why].peer == s.owners[request]
      && Step(s, Admits(request)).answers[why].place.Used?
  {
    assert DecisionOk(s, request);
  }

  lemma ArrivedEarlier(run: seq<Event>, n: nat, request: nat, peer: PeerId)
    requires n <= |run| && ArrivedFrom(run[..n], n, request, peer)
    ensures ArrivedFrom(run, n, request, peer)
  {
    var h :| 0 <= h < n && run[..n][h] == Arrives(request, peer);
    assert run[h] == Arrives(request, peer);
  }

  lemma NotUsedYet(s: State, asked: seq<nat>, a: nat)
    requires |asked| == |s.answers| && a < |asked| && !s.answers[a].place.Used?
    requires forall i, j | 0 <= i < j < |asked| :: asked[i] < asked[j]
    ensures !IsUsed(s, asked, asked[a])
  {
  }

  lemma AdmissionSource(run: seq<Event>, s: State, asked: seq<nat>, request: nat) returns (why: nat)
    requires run != [] && run[|run| - 1] == Admits(request)
    requires Inv(s) && Enabled(s, Admits(request))
    requires Asked(run[..|run| - 1], s, asked) && Owned(run[..|run| - 1], s)
    ensures why < |asked| && Explains(run, |run| - 1, asked[why]) && !IsUsed(s, asked, asked[why])
    ensures why == s.requests[request].progress.why
  {
    var n := |run| - 1;
    WhyAdmitted(s, request);
    why := s.requests[request].progress.why;
    var peer := s.owners[request];
    AnswersInPrefix(run, n, asked[why], peer, true);
    ArrivedEarlier(run, n, request, peer);
    NotUsedYet(s, asked, why);
  }

  /** The admissions before the last event keep their sources. */
  lemma EarlierSource(run: seq<Event>, s: State, asked: seq<nat>, more: seq<nat>, source: seq<nat>, j: nat)
    requires run != [] && Inv(s) && Enabled(s, run[|run| - 1]) && j < |run| - 1 && run[j].Admits?
    requires Sourced(run[..|run| - 1], s, asked, source)
    requires asked <= more && |more| == |Step(s, run[|run| - 1]).answers|
    ensures Explains(run, j, source[j]) && IsUsed(s, asked, source[j])
    ensures IsUsed(Step(s, run[|run| - 1]), more, source[j])
  {
    var n := |run| - 1;
    assert run[..n][j] == run[j];
    ExplainsInPrefix(run, n, j, source[j]);
    UsedStays(s, run[n], asked, more, source[j]);
  }

  /** The source of the last event, if it is an admission. */
  lemma LastSource(run: seq<Event>, s: State, asked: seq<nat>, more: seq<nat>) returns (last: nat)
    requires run != [] && Inv(s) && Enabled(s, run[|run| - 1]) && run[|run| - 1].Admits?
    requires Asked(run[..|run| - 1], s, asked) && Owned(run[..|run| - 1], s)
    requires asked <= more && |more| == |Step(s, run[|run| - 1]).answers|
    ensures Explains(run, |run| - 1, last) && !IsUsed(s, asked, last)
    ensures IsUsed(Step(s, run[|run| - 1]), more, last)
  {
    var n := |run| - 1;
    var why := AdmissionSource(run, s, asked, run[n].request);
    WhyAdmitted(s, run[n].request);
    last := asked[why];
    assert more[why] == last;
  }

  lemma SourcesJoin(run: seq<Event>, source: seq<nat>, last: nat)
    requires run != [] && Justifies(run[..|run| - 1], source)
    requires forall j | 0 <= j < |run| - 1 && run[j].Admits? :: Explains(run, j, source[j]) && source[j] != last
    requires run[|run| - 1].Admits? ==> Explains(run, |run| - 1, last)
    ensures Justifies(run, source + [last])
  {
    assert forall i | 0 <= i < |run| - 1 :: run[..|run| - 1][i] == run[i];
  }

  lemma SourcedStep(run: seq<Event>, s: State, asked: seq<nat>, more: seq<nat>, source: seq<nat>)
    returns (all: seq<nat>)
    requires run != [] && Inv(s) && Enabled(s, run[|run| - 1])
    requires Asked(run[..|run| - 1], s, asked) && Owned(run[..|run| - 1], s)
    requires Sourced(run[..|run| - 1], s, asked, source)
    requires asked <= more && |more| == |Step(s, run[|run| - 1]).answers|
    ensures Sourced(run, Step(s, run[|run| - 1]), more, all)
  {
    var n := |run| - 1;
    var last := |run|;
    if run[n].Admits? {
      last := LastSource(run, s, asked, more);
    }
    forall j | 0 <= j < n && run[j].Admits?
      ensures Explains(run, j, source[j]) && source[j] != last && IsUsed(Step(s, run[n]), more, source[j])
    {
      EarlierSource(run, s, asked, more, source, j);
    }
    SourcesJoin(run, source, last);
    all := source + [last];
  }

  /** The provenance of everything that a run records. */
  lemma {:induction false} Provenance(run: seq<Event>) returns (asked: seq<nat>, source: seq<nat>)
    requires Legal(Step, FRESH, run)
    ensures
      var s := Run(Step, FRESH, run);
      Asked(run, s, asked) && Owned(run, s) && Sourced(run, s, asked, source)
    decreases |run|
  {
    if run == [] {
      asked, source := [], [];
    } else {
      var s := BeforeLast(run);
      var earlier, before := Provenance(run[..|run| - 1]);
      asked := AskedStep(run, s, earlier);
      OwnedStep(run, s);
      source := SourcedStep(run, s, earlier, asked, before);
    }
  }

  /** A stream is admitted only after a true answer to the peer that it came from, given by that peer's id or by a
      number that led to that peer at that moment; and no answer admits two streams. Said of the events of any run. */
  lemma AdmissionsNeedAnswers(run: seq<Event>)
    requires Legal(Step, FRESH, run)
    ensures exists source :: Justifies(run, source)
  {
    var asked, source := Provenance(run);
  }

  /** A rejection at place `j` has its reason: the request timed out, or a false answer was given to its peer. */
  ghost predicate RejectedWhy(run: seq<Event>, j: nat)
    requires j < |run| && run[j].Rejects?
  {
    || (exists i | 0 <= i < j :: run[i] == TimesOut(run[j].request))
    || (exists i, peer | 0 <= i < j :: ArrivedFrom(run, j, run[j].request, peer) && Answers(run, i, peer, false))
  }

  /** A refused request timed out, or has taken a false answer. */
  ghost predicate RefusedWhy(run: seq<Event>, s: State, r: nat)
    requires r in s.requests
  {
    s.requests[r].progress.Refused? ==>
      || (exists i | 0 <= i < |run| :: run[i] == TimesOut(r))
      || (exists a | 0 <= a < |s.answers| :: s.answers[a].place == Taken(r) && !s.answers[a].accepted)
  }

  lemma RefusedStep(run: seq<Event>, s: State, r: nat)
    requires run != [] && Inv(s) && Enabled(s, run[|run| - 1])
    requires r in s.requests ==> RefusedWhy(run[..|run| - 1], s, r)
    requires r in Step(s, run[|run| - 1]).requests
    ensures RefusedWhy(run, Step(s, run[|run| - 1]), r)
  {
    var n := |run| - 1;
    var ev, t := run[n], Step(s, run[n]);
    if t.requests[r].progress.Refused? {
      if ev == TimesOut(r) {
        assert run[n] == TimesOut(r);
      } else if ev.Takes? && ev.request == r {
        assert t.answers[ev.answer].place == Taken(r) && !t.answers[ev.answer].accepted;
      } else if i :| 0 <= i < n && run[..n][i] == TimesOut(r) {
        assert run[i] == TimesOut(r);
      } else {
        var a :| 0 <= a < |s.answers| && s.answers[a].place == Taken(r) && !s.answers[a].accepted;
        TakenStays(s, ev, r, a);
      }
    }
  }

  lemma TakenStays(s: State, ev: Event, r: nat, a: nat)
    requires Inv(s) && Enabled(s, ev) && a < |s.answers| && s.answers[a].place == Taken(r) && !s.answers[a].accepted
    ensures a < |Step(s, ev).answers| && Step(s, ev).answers[a] == s.answers[a]
  {
    if ev.Admits? {
      assert DecisionOk(s, ev.request);
    }
  }

  lemma {:induction false} RefusedHaveReasons(run: seq<Event>, r: nat)
    requires Legal(Step, FRESH, run) && r in Run(Step, FRESH, run).requests
    ensures RefusedWhy(run, Run(Step, FRESH, run), r)
    decreases |run|
  {
    if run != [] {
      var s := BeforeLast(run);
      if r in s.requests {
        RefusedHaveReasons(run[..|run| - 1], r);
      }
      RefusedStep(run, s, r);
    }
  }

  /** A false answer that a request has taken was given to the peer of that request. */
  lemma TakenWasGiven(run: seq<Event>, s: State, r: nat, a: nat) returns (i: nat)
    requires Reachable(run, s) && a < |s.answers| && s.answers[a].place == Taken(r) && !s.answers[a].accepted
    ensures r in s.owners && ArrivedFrom(run, |run|, r, s.owners[r])
    ensures i < |run| && Answers(run, i, s.owners[r], false)
  {
    var asked, source := Provenance(run);
    RunKeepsInv(FRESH, run);
    assert AnswerOk(s, a);
    i := asked[a];
  }

  /** A stream is rejected only if it timed out or a false answer was given to the peer that it came from. */
  lemma RejectionsHaveReasons(run: seq<Event>, j: nat)
    requires Legal(Step, FRESH, run) && j < |run| && run[j].Rejects?
    ensures RejectedWhy(run, j)
  {
    var r := run[j].request;
    LegalPrefix(FRESH, run, j);
    var s := Run(Step, FRESH, run[..j]);
    RefusedHaveReasons(run[..j], r);
    if i :| 0 <= i < j && run[..j][i] == TimesOut(r) {
      assert run[i] == TimesOut(r);
    } else {
      var a :| 0 <= a < |s.answers| && s.answers[a].place == Taken(r) && !s.answers[a].accepted;
      var i := TakenWasGiven(run[..j], s, r, a);
      AnswersInPrefix(run, j, i, s.owners[r], false);
      ArrivedEarlier(run, j, r, s.owners[r]);
    }
  }

  /** A request that is registered for its peer, waits, and has no answer in its channel. */
  ghost predicate Awaits(s: State, request: nat) {
    && Inv(s) && request in s.requests && s.requests[request].progress.Waiting?
    && Registered(s, s.requests[request].peer, request)
    && forall i | 0 <= i < |s.answers| :: s.answers[i].place != InChannel(request)
  }

  /** A stream that arrives is registered under the next number and waits for an answer. */
  lemma ArrivalAwaits(s: State, request: nat, peer: PeerId)
    requires Inv(s) && Enabled(s, Arrives(request, peer))
    ensures
      var t := Step(s, Arrives(request, peer));
      Awaits(t, request) && t.requests[request] == Request(peer, s.desk.nextNumber + 1, Waiting)
  {
    ArrivalKeepsInv(s, request, peer);
    forall i | 0 <= i < |s.answers| ensures s.answers[i].place != InChannel(request) {
      assert AnswerOk(s, i);
    }
  }

  /** From the moment that an answer is about to enter the channel of a waiting request. */
  lemma EnteringDecides(s: State, request: nat, n: nat)
    requires request in s.requests && s.requests[request].progress.Waiting?
    requires At(s, n, Outgoing(request))
    requires forall i | 0 <= i < |s.answers| :: s.answers[i].place != InChannel(request)
    ensures
      var run := [Enters(n)] + [Takes(request, n)];
      && Legal(Step, s, run)
      && var t := Run(Step, s, run);
         && (Enabled(t, Admits(request)) <==> s.answers[n].accepted)
         && (Enabled(t, Rejects(request)) <==> !s.answers[n].accepted)
  {
    assert Enabled(s, Enters(n));
    One(Step, s, Enters(n));
    var t := Step(s, Enters(n));
    assert t.answers[n].place == InChannel(request) && Enabled(t, Takes(request, n));
    Then(Step, s, [Enters(n)], Takes(request, n));
  }

  /** An answer by peer goes to the channel registered for that peer and decides as it was given: acceptance lets the
      stream be admitted and not rejected, refusal the other way round. */
  lemma AnswerByPeerDecides(s: State, request: nat, accepted: bool)
    requires Awaits(s, request)
    ensures
      var n := |s.answers|;
      var run := [AnsweredByPeer(s.requests[request].peer, accepted)] + ([Enters(n)] + [Takes(request, n)]);
      && Legal(Step, s, run)
      && var t := Run(Step, s, run);
         (Enabled(t, Admits(request)) <==> accepted) && (Enabled(t, Rejects(request)) <==> !accepted)
  {
    var n := |s.answers|;
    var ev := AnsweredByPeer(s.requests[request].peer, accepted);
    var t := Step(s, ev);
    One(Step, s, ev);
    assert t.answers[n] == Answer(s.requests[request].peer, accepted, Outgoing(request));
    EnteringDecides(t, request, n);
    Concat(Step, s, [ev], [Enters(n)] + [Takes(request, n)]);
  }

  /** An answer by number, up to the lookup of the channel. */
  lemma NumberResolves(s: State, request: nat, accepted: bool) returns (u: State)
    requires Awaits(s, request)
    ensures
      var run := [AnsweredByNumber(s.requests[request].number, accepted)] + [Resolves(|s.answers|)];
      Legal(Step, s, run) && Run(Step, s, run) == u
    ensures u == s.(answers := s.answers + [Answer(s.requests[request].peer, accepted, Outgoing(request))])
  {
    var n := |s.answers|;
    var r := s.requests[request];
    var ev := AnsweredByNumber(r.number, accepted);
    var t := Step(s, ev);
    AnswerIsAddressed(s, request, accepted);
    assert Enabled(t, Resolves(n)) && t.answers[n] == Answer(r.peer, accepted, Resolved);
    One(Step, s, ev);
    Then(Step, s, [ev], Resolves(n));
    u := Step(t, Resolves(n));
  }

  /** The same for an answer by the request's number. */
  lemma AnswerByNumberDecides(s: State, request: nat, accepted: bool)
    requires Awaits(s, request)
    ensures
      var n := |s.answers|;
      var ask := [AnsweredByNumber(s.requests[request].number, accepted)] + [Resolves(n)];
      var run := ask + ([Enters(n)] + [Takes(request, n)]);
      && Legal(Step, s, run)
      && var t := Run(Step, s, run);
         (Enabled(t, Admits(request)) <==> accepted) && (Enabled(t, Rejects(request)) <==> !accepted)
  {
    var n := |s.answers|;
    var ask := [AnsweredByNumber(s.requests[request].number, accepted)] + [Resolves(n)];
    var u := NumberResolves(s, request, accepted);
    EnteringDecides(u, request, n);
    Concat(Step, s, ask, [Enters(n)] + [Takes(request, n)]);
  }

  /** A request that times out can only be rejected. */
  lemma TimeoutRejects(s: State, request: nat)
    requires Enabled(s, TimesOut(request))
    ensures Enabled(Step(s, TimesOut(request)), Rejects(request))
    ensures !Enabled(Step(s, TimesOut(request)), Admits(request))
  {
  }
}
