/** The front end (extract_email_fe): it posts a job envelope for the back end and then polls
    for the job's result every two seconds until a reply other than 'Nok' arrives or two
    minutes have passed.

    The network and the clock are parameters: a World says how many milliseconds pass before
    each clock reading (the time the previous request took, say) and what each GET of the
    result answers. A sleep lasts exactly two seconds. */
module FrontEnd {
  import opened Json
  import opened Text
  import Handler

  // ---------------------------------------------------------------------------
  // The envelope
  // ---------------------------------------------------------------------------

  /** The message posted to the manager. */
  datatype Envelope = Envelope(messagem: int, moment: string, sender: string, receiver: string,
                               control: int, content: string, log: string, status: string)

  /** The job content: the three arguments joined by '@'. */
  function JobContent(paramFile: string, outFile: string, option: string): string {
    paramFile + "@" + outFile + "@" + option
  }

  /** send_message: the envelope for a job; `moment` is the time the job was sent. */
  function SendMessage(paramFile: string, outFile: string, option: string, moment: string): (e: Envelope)
    ensures e.messagem == 0 && e.control == 7
    ensures e.sender == "extract_email_fe" && e.receiver == "extract_email_be"
    ensures e.log == "False" && e.status == "E"
    ensures e.moment == moment
  {
    Envelope(0, moment, "extract_email_fe", "extract_email_be", 7, JobContent(paramFile, outFile, option), "False", "E")
  }

  /** The '@' of a job content are those of the three arguments and the two separators. */
  lemma SeparatorsOfContent(paramFile: string, outFile: string, option: string)
    ensures multiset(JobContent(paramFile, outFile, option))['@']
            == multiset(paramFile)['@'] + multiset(outFile)['@'] + multiset(option)['@'] + 2
  {
    assert JobContent(paramFile, outFile, option) == paramFile + "@" + outFile + "@" + option;
  }

  /** The back end unpacks the content the front end sends into the same three arguments
      exactly when none of them contains '@'. */
  lemma ContentRoundTrip(paramFile: string, outFile: string, option: string, moment: string)
    ensures var u := Handler.ParseMessage(SendMessage(paramFile, outFile, option, moment).content);
            (u == Handler.Unpacked(paramFile, outFile, option))
            <==> ('@' !in paramFile && '@' !in outFile && '@' !in option)
  {
    if '@' !in paramFile && '@' !in outFile && '@' !in option {
      Handler.UnpackJoined(paramFile, outFile, option);
    }
  }

  /** When an argument contains '@', the back end's unpacking raises. */
  lemma ContentWithSeparatorRaises(paramFile: string, outFile: string, option: string, moment: string)
    requires '@' in paramFile || '@' in outFile || '@' in option
    ensures Handler.ParseMessage(SendMessage(paramFile, outFile, option, moment).content).UnpackError?
  {
    SeparatorsOfContent(paramFile, outFile, option);
  }

  // ---------------------------------------------------------------------------
  // The poll loop
  // ---------------------------------------------------------------------------

  /** max_seconds, in milliseconds. */
  const MaxMs: nat := 120000

  /** The sleep between polls, in milliseconds. */
  const PollIntervalMs: nat := 2000

  /** What a GET of the result gives: the decoded reply, or an exception (of the request or
      of the decoding). */
  datatype Reply = Answer(value: Value) | Raises

  /** The clock and the network: `gap(k)` milliseconds pass before clock reading k (not
      counting sleeps), and the j-th GET of the result answers `reply(j)`. */
  datatype World = World(gap: nat -> nat, reply: nat -> Reply)

  /** A reply that ends the loop: one that decodes to something other than 'Nok'. */
  predicate Stops(r: Reply) {
    r.Answer? && r.value != Str("Nok")
  }

  /** Where the loop ended: the last clock reading, how many readings and GETs it made, and
      whether a reply ended it (rather than the deadline). */
  datatype LoopEnd = LoopEnd(clock: nat, readings: nat, polls: nat, stopped: bool)

  /** The loop from the moment its condition has read the clock as `now`. */
  function LoopFrom(w: World, now: nat, readings: nat, polls: nat): LoopEnd
    decreases MaxMs - now
  {
    if now >= MaxMs then LoopEnd(now, readings, polls, false)
    else if Stops(w.reply(polls)) then LoopEnd(now, readings, polls + 1, true)
    else LoopFrom(w, now + PollIntervalMs + w.gap(readings), readings + 1, polls + 1)
  }

  /** The front end's `while` loop: poll, stop on a reply other than 'Nok', else sleep and
      read the clock; the start time is clock 0. */
  function Loop(w: World): LoopEnd {
    LoopFrom(w, w.gap(0), 1, 0)
  }

  /** The outcome of the wait. */
  datatype Waited =
    | Completed(result: Option<Value>)   // the reply of a fresh GET, None when it raised
    | TimedOut

  /** After the loop: a fresh clock reading decides between success and timeout; on success
      the result is fetched again. */
  function Await(w: World): Waited {
    var e := Loop(w);
    if e.clock + w.gap(e.readings) < MaxMs then
      var again := w.reply(e.polls);
      Completed(if again.Answer? then Some(again.value) else None)
    else TimedOut
  }

  /** The clock reading before GET j when none of the earlier GETs ended the loop. */
  function Reading(w: World, j: nat): nat {
    if j == 0 then w.gap(0) else Reading(w, j - 1) + PollIntervalMs + w.gap(j)
  }

  /** None of GETs from..to-1 ends the loop. */
  predicate NoneStops(w: World, from: nat, to: nat) {
    forall j :: from <= j < to ==> !Stops(w.reply(j))
  }

  /** The loop from the clock reading before GET k. */
  lemma {:induction false} LoopFromReading(w: World, k: nat)
    ensures var e := LoopFrom(w, Reading(w, k), k + 1, k);
            e.polls >= k
            && e.readings == e.polls + (if e.stopped then 0 else 1)
            && (forall j :: k <= j < e.polls ==> Reading(w, j) < MaxMs)
            && (e.stopped ==> e.polls > k && NoneStops(w, k, e.polls - 1) && Stops(w.reply(e.polls - 1))
                              && e.clock == Reading(w, e.polls - 1))
            && (!e.stopped ==> NoneStops(w, k, e.polls) && e.clock == Reading(w, e.polls) && e.clock >= MaxMs)
    decreases MaxMs - Reading(w, k)
  {
    var now := Reading(w, k);
    if now < MaxMs && !Stops(w.reply(k)) {
      assert Reading(w, k + 1) == now + PollIntervalMs + w.gap(k + 1);
      LoopFromReading(w, k + 1);
    }
  }

  /** What the loop does: it makes GETs 0, 1, ... each after a clock reading below the
      deadline; it stops at the first reply other than 'Nok', without sleeping after it; a
      GET that raises is passed over like a 'Nok'; and it makes no GET once the clock has
      reached the deadline. */
  lemma LoopCharacterization(w: World)
    ensures var e := Loop(w);
            (forall j :: 0 <= j < e.polls ==> Reading(w, j) < MaxMs)
            && (e.stopped ==> e.polls > 0 && NoneStops(w, 0, e.polls - 1) && Stops(w.reply(e.polls - 1))
                              && e.clock == Reading(w, e.polls - 1))
            && (!e.stopped ==> NoneStops(w, 0, e.polls) && e.clock == Reading(w, e.polls) && e.clock >= MaxMs)
            && e.readings == e.polls + (if e.stopped then 0 else 1)
  {
    LoopFromReading(w, 0);
  }

  /** Two seconds of sleep separate the readings, so the loop makes at most 60 GETs. */
  lemma {:induction false} ReadingsAreSpaced(w: World, j: nat)
    ensures Reading(w, j) >= PollIntervalMs * j
  {
    if j > 0 {
      ReadingsAreSpaced(w, j - 1);
    }
  }

  lemma AtMostSixtyPolls(w: World)
    ensures Loop(w).polls <= 60
  {
    var e := Loop(w);
    LoopCharacterization(w);
    ReadingsAreSpaced(w, 60);
  }

  /** A wait reported as successful saw a reply other than 'Nok', and its result is the
      reply of the GET after the last one of the loop. */
  lemma SuccessNeedsAnswer(w: World)
    ensures Await(w).Completed? ==> Loop(w).stopped
    ensures Await(w).Completed? ==>
              Await(w).result == (if w.reply(Loop(w).polls).Answer? then Some(w.reply(Loop(w).polls).value) else None)
  {
    LoopCharacterization(w);
  }

  /** If no GET ever answers anything but 'Nok' (or raises), the wait times out. */
  lemma NeverAnsweredTimesOut(w: World)
    requires forall j :: !Stops(w.reply(j))
    ensures Await(w) == TimedOut
  {
    LoopCharacterization(w);
  }

  /** A world where every request is instantaneous. */
  function Instant(reply: nat -> Reply): World {
    World(_ => 0, reply)
  }

  lemma {:induction false} InstantReading(reply: nat -> Reply, j: nat)
    ensures Reading(Instant(reply), j) == PollIntervalMs * j
  {
    if j > 0 {
      InstantReading(reply, j - 1);
    }
  }

  /** With instantaneous requests and 'Nok' throughout, the loop polls exactly 60 times,
      at 0, 2, ..., 118 seconds, and the wait times out. */
  lemma AllNokPollsSixtyTimes()
    ensures var w := Instant(_ => Answer(Str("Nok")));
            Loop(w).polls == 60 && Await(w) == TimedOut
  {
    var w := Instant(_ => Answer(Str("Nok")));
    LoopCharacterization(w);
    var e := Loop(w);
    InstantReading(w.reply, e.polls);
    InstantReading(w.reply, 60);
    NeverAnsweredTimesOut(w);
  }

  /** GETs that raise are passed over: after two failures the third reply ends the loop, and
      what is reported comes from a fourth GET (here one that fails, which is swallowed). */
  lemma FailuresArePassedOver()
    ensures var w := Instant(j => if j < 2 then Raises else if j == 2 then Answer(Str("done")) else Raises);
            Loop(w) == LoopEnd(4000, 3, 3, true) && Await(w) == Completed(None)
  {
  }

  /** A reply other than 'Nok' just before the deadline is still reported as a timeout when
      the fresh clock reading after the loop has passed it. */
  lemma DeadlineRace()
    ensures var w := World(k => if k == 0 then MaxMs - 1 else 1, _ => Answer(Str("done")));
            Loop(w).stopped && Await(w) == TimedOut
  {
  }

  /** The front end's wait: poll until a reply other than 'Nok' or the deadline, then read
      the clock again and, on success, fetch the result once more. */
  method AwaitResult(w: World) returns (outcome: Waited)
    ensures outcome == Await(w)
  {
    ghost var end := Loop(w);
    var now := w.gap(0);
    var readings := 1;
    var polls := 0;
    while now < MaxMs
      invariant LoopFrom(w, now, readings, polls) == end
      decreases MaxMs - now
    {
      var reply := w.reply(polls);
      polls := polls + 1;
      if Stops(reply) {
        break;
      }
      now := now + PollIntervalMs + w.gap(readings);
      readings := readings + 1;
    }
    assert end == LoopEnd(now, readings, polls, end.stopped);
    if now + w.gap(readings) < MaxMs {
      var again := w.reply(polls);
      outcome := Completed(if again.Answer? then Some(again.value) else None);
    } else {
      outcome := TimedOut;
    }
  }
}
