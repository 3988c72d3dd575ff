/** The revisit queue of `cli.py`: incomplete transfers wait in it for repair-only attempts, each key at most once, until
    they complete or use up their passes. */
module Revisit {
  import opened Bytes

  const ID_BYTES := 16

  type RevisitKey = (string, string)

  /** An entry: destination host, remote name, the transfer id its hexadecimal text stands for, and the passes used. */
  datatype Visit = Visit(host: string, name: string, id: bytes, attempts: nat)

  function KeyOf(e: Visit): (k: RevisitKey)
  {
    (e.host, e.name)
  }

  /** What a `send_file` call of an attempt reports: complete, or whether any repair was serviced. */
  datatype Report = Completed | Progress | NoProgress

  /** The queue, the active keys, the entries taken out and not yet dealt with, and what has become of the entries
      accepted so far. */
  datatype Revisits = Revisits(queue: seq<Visit>, active: set<RevisitKey>, serving: set<Visit>,
                               accepted: nat, completed: nat, retired: nat)

  const NO_REVISITS := Revisits([], {}, {}, 0, 0, 0)

  // ---------------------------------------------------------------- the operations

  /** `_enqueue_revisit`. */
  function Enqueue(s: Revisits, host: string, name: string, id: bytes, prioritize: bool): (r: Revisits)
  {
    var e := Visit(host, name, id, 0);
    if KeyOf(e) in s.active then s
    else s.(queue := if prioritize then [e] + s.queue else s.queue + [e], active := s.active + {KeyOf(e)},
            accepted := s.accepted + 1)
  }

  /** `popleft`. */
  function Take(s: Revisits): (r: Revisits)
    requires s.queue != []
  {
    s.(queue := s.queue[1..], serving := s.serving + {s.queue[0]})
  }

  /** A worker gives an entry back untried. */
  function PutBack(s: Revisits, e: Visit): (r: Revisits)
  {
    s.(queue := s.queue + [e], serving := s.serving - {e})
  }

  /** What an attempt does with its entry: an id of the wrong size and a used-up pass retire it, no progress leaves it as
      it was, progress uses a pass. */
  function Conclude(passes: nat, s: Revisits, e: Visit, report: Report): (r: Revisits)
  {
    var served := s.(serving := s.serving - {e});
    if |e.id| != ID_BYTES then served.(active := s.active - {KeyOf(e)}, retired := s.retired + 1)
    else if report.Completed? then served.(active := s.active - {KeyOf(e)}, completed := s.completed + 1)
    else if report.NoProgress? then served.(queue := s.queue + [e])
    else if e.attempts + 1 >= passes then served.(active := s.active - {KeyOf(e)}, retired := s.retired + 1)
    else served.(queue := s.queue + [e.(attempts := e.attempts + 1)])
  }

  // ---------------------------------------------------------------- the invariant

  /** Keys are pairwise distinct over the queue and the entries in service, and together they are the active keys; queued
      entries have passes left; and every accepted entry is accounted for. */
  ghost predicate Conserved(passes: nat, s: Revisits)
  {
    && (forall i, j :: 0 <= i < j < |s.queue| ==> KeyOf(s.queue[i]) != KeyOf(s.queue[j]))
    && (forall i, e :: 0 <= i < |s.queue| && e in s.serving ==> KeyOf(s.queue[i]) != KeyOf(e))
    && (forall e, f :: e in s.serving && f in s.serving && KeyOf(e) == KeyOf(f) ==> e == f)
    && (forall k :: k in s.active <==> Listed(s, k))
    && (forall i :: 0 <= i < |s.queue| ==> s.queue[i].attempts < passes)
    && (forall e :: e in s.serving ==> e.attempts < passes)
    && s.accepted == s.completed + s.retired + |s.queue| + |s.serving|
  }

  ghost predicate Listed(s: Revisits, k: RevisitKey)
  {
    (exists i :: 0 <= i < |s.queue| && KeyOf(s.queue[i]) == k) || (exists e :: e in s.serving && KeyOf(e) == k)
  }

  lemma EnqueueKeeps(passes: nat, s: Revisits, host: string, name: string, id: bytes, prioritize: bool)
    requires Conserved(passes, s) && passes > 0
    ensures Conserved(passes, Enqueue(s, host, name, id, prioritize))
  {
    var e, r := Visit(host, name, id, 0), Enqueue(s, host, name, id, prioritize);
    if KeyOf(e) !in s.active {
      assert forall i :: 0 <= i < |s.queue| ==> KeyOf(s.queue[i]) != KeyOf(e);
      assert forall f :: f in s.serving ==> KeyOf(f) != KeyOf(e);
      forall k ensures k in r.active <==> Listed(r, k) {
        assert k in s.active <==> Listed(s, k);
        hide Conserved;
        EnqueueLists(s, r, e, prioritize, k);
      }
    }
  }

  /** The keys that are listed are those from before and the new one. */
  lemma EnqueueLists(s: Revisits, r: Revisits, e: Visit, prioritize: bool, k: RevisitKey)
    requires r.serving == s.serving && r.queue == if prioritize then [e] + s.queue else s.queue + [e]
    ensures Listed(r, k) <==> Listed(s, k) || k == KeyOf(e)
  {
    var shift := if prioritize then 1 else 0;
    if Listed(s, k) && !(exists f :: f in s.serving && KeyOf(f) == k) {
      var i :| 0 <= i < |s.queue| && KeyOf(s.queue[i]) == k;
      assert KeyOf(r.queue[i + shift]) == k;
    }
    if k == KeyOf(e) {
      assert KeyOf(r.queue[if prioritize then 0 else |s.queue|]) == k;
    }
  }

  lemma TakeKeeps(passes: nat, s: Revisits)
    requires Conserved(passes, s) && s.queue != []
    ensures Conserved(passes, Take(s)) && s.queue[0] in Take(s).serving
  {
    var e, r := s.queue[0], Take(s);
    assert e !in s.serving;
    forall k ensures k in r.active <==> Listed(r, k) {
      assert k in s.active <==> Listed(s, k);
      if Listed(s, k) && !(exists f :: f in s.serving && KeyOf(f) == k) {
        var i :| 0 <= i < |s.queue| && KeyOf(s.queue[i]) == k;
        if i > 0 {
          assert KeyOf(r.queue[i - 1]) == k;
        } else {
          assert e in r.serving && KeyOf(e) == k;
        }
      }
    }
  }

  /** An entry in service goes back, with its key. */
  lemma ReturnKeeps(passes: nat, s: Revisits, e: Visit, f: Visit)
    requires Conserved(passes, s) && e in s.serving && KeyOf(f) == KeyOf(e) && f.attempts < passes
    ensures Conserved(passes, s.(queue := s.queue + [f], serving := s.serving - {e}))
  {
    var r := s.(queue := s.queue + [f], serving := s.serving - {e});
    forall k ensures k in r.active <==> Listed(r, k) {
      assert k in s.active <==> Listed(s, k);
      if k == KeyOf(e) {
        assert KeyOf(r.queue[|s.queue|]) == k;
      } else if exists i :: 0 <= i < |s.queue| && KeyOf(s.queue[i]) == k {
        var i :| 0 <= i < |s.queue| && KeyOf(s.queue[i]) == k;
        assert KeyOf(r.queue[i]) == k;
      }
    }
  }

  /** An entry in service leaves for good, with its key. */
  lemma LeaveKeeps(passes: nat, s: Revisits, e: Visit)
    requires Conserved(passes, s) && e in s.serving
    ensures Conserved(passes, s.(serving := s.serving - {e}, active := s.active - {KeyOf(e)}, completed := s.completed + 1))
    ensures Conserved(passes, s.(serving := s.serving - {e}, active := s.active - {KeyOf(e)}, retired := s.retired + 1))
  {
    var r := s.(serving := s.serving - {e}, active := s.active - {KeyOf(e)}, completed := s.completed + 1);
    var q := s.(serving := s.serving - {e}, active := s.active - {KeyOf(e)}, retired := s.retired + 1);
    forall k ensures Listed(r, k) <==> k in r.active {
      assert k in s.active <==> Listed(s, k);
      if k != KeyOf(e) && exists f :: f in s.serving && KeyOf(f) == k {
        var f :| f in s.serving && KeyOf(f) == k;
        assert f in r.serving;
      }
    }
    assert forall k :: Listed(q, k) <==> Listed(r, k);
  }

  lemma ConcludeKeeps(passes: nat, s: Revisits, e: Visit, report: Report)
    requires Conserved(passes, s) && e in s.serving
    ensures Conserved(passes, Conclude(passes, s, e, report))
  {
    hide Conserved;
    LeaveKeeps(passes, s, e);
    AttemptsLeft(passes, s, e);
    ReturnKeeps(passes, s, e, e);
    if e.attempts + 1 < passes {
      ReturnKeeps(passes, s, e, e.(attempts := e.attempts + 1));
    }
  }

  lemma AttemptsLeft(passes: nat, s: Revisits, e: Visit)
    requires Conserved(passes, s) && e in s.serving
    ensures e.attempts < passes
  {
  }

  // ---------------------------------------------------------------- every run

  /** The steps of the main thread and of the worker, in whatever order their locks allow. */
  datatype RevisitEvent = Incomplete(host: string, name: string, id: bytes, prioritize: bool)
                        | TakeNext | GiveBack(entry: Visit) | Attempted(entry: Visit, report: Report)

  function RevisitStep(passes: nat, s: Revisits, e: RevisitEvent): (r: Revisits)
  {
    match e
    case Incomplete(host, name, id, prioritize) => Enqueue(s, host, name, id, prioritize)
    case TakeNext => if s.queue == [] then s else Take(s)
    case GiveBack(entry) => if entry in s.serving then PutBack(s, entry) else s
    case Attempted(entry, report) => if entry in s.serving then Conclude(passes, s, entry, report) else s
  }

  function RevisitRun(passes: nat, events: seq<RevisitEvent>, n: nat): (s: Revisits)
    requires n <= |events|
  {
    if n == 0 then NO_REVISITS else RevisitStep(passes, RevisitRun(passes, events, n - 1), events[n - 1])
  }

  /** In every state of every run the keys queued and in service are pairwise distinct and are the active keys, queued
      entries have used fewer passes than they are allowed, and accepted = completed + retired + left. */
  lemma {:induction false} RevisitsAreConserved(passes: nat, events: seq<RevisitEvent>, n: nat)
    requires passes > 0 && n <= |events|
    ensures Conserved(passes, RevisitRun(passes, events, n))
  {
    hide Conserved, Enqueue, Take, Conclude;
    if n == 0 {
      NothingIsConserved(passes);
    } else {
      RevisitsAreConserved(passes, events, n - 1);
      var s := RevisitRun(passes, events, n - 1);
      match events[n - 1]
      case Incomplete(host, name, id, prioritize) => EnqueueKeeps(passes, s, host, name, id, prioritize);
      case TakeNext => if s.queue != [] { TakeKeeps(passes, s); }
      case GiveBack(e) => if e in s.serving { AttemptsLeft(passes, s, e); ReturnKeeps(passes, s, e, e); }
      case Attempted(e, report) => if e in s.serving { ConcludeKeeps(passes, s, e, report); }
    }
  }

  lemma NothingIsConserved(passes: nat)
    ensures Conserved(passes, NO_REVISITS)
  {
    assert forall k :: !Listed(NO_REVISITS, k);
  }

  // ---------------------------------------------------------------- passes

  /** Event `n` of a run brings a new entry of the key. */
  ghost predicate AcceptedAt(passes: nat, events: seq<RevisitEvent>, n: nat, key: RevisitKey)
    requires n < |events|
  {
    && events[n].Incomplete? && (events[n].host, events[n].name) == key
    && key !in RevisitRun(passes, events, n).active
  }

  /** Event `n` of a run is an attempt at an entry of the key, which is in service. */
  ghost predicate TriedAt(passes: nat, events: seq<RevisitEvent>, n: nat, key: RevisitKey)
    requires n < |events|
  {
    events[n].Attempted? && KeyOf(events[n].entry) == key && events[n].entry in RevisitRun(passes, events, n).serving
  }

  /** The attempts with progress at the entry of a key, among the first `n` events, since it was accepted last. */
  ghost function Progresses(passes: nat, events: seq<RevisitEvent>, n: nat, key: RevisitKey): (k: nat)
    requires n <= |events|
  {
    if n == 0 || AcceptedAt(passes, events, n - 1, key) then 0
    else
      Progresses(passes, events, n - 1, key)
      + (if TriedAt(passes, events, n - 1, key) && events[n - 1].report.Progress? then 1 else 0)
  }

  /** An entry of the state: queued or in service. */
  ghost predicate Present(s: Revisits, e: Visit)
  {
    e in s.queue || e in s.serving
  }

  /** What a step leaves of the entries: each was there before with the same passes used, or is new with none, or has used
      one more in an attempt with progress. */
  lemma StepEntries(passes: nat, s: Revisits, e: RevisitEvent, x: Visit)
    requires Conserved(passes, s) && Present(RevisitStep(passes, s, e), x)
    ensures if e.Attempted? && e.entry in s.serving && KeyOf(e.entry) == KeyOf(x) && e.report.Progress?
            then x == e.entry.(attempts := e.entry.attempts + 1)
            else Present(s, x) || (e.Incomplete? && x == Visit(e.host, e.name, e.id, 0) && KeyOf(x) !in s.active)
  {
  }

  lemma PresentIsActive(passes: nat, s: Revisits, x: Visit)
    requires Conserved(passes, s) && Present(s, x)
    ensures KeyOf(x) in s.active && x.attempts < passes
  {
    assert Listed(s, KeyOf(x));
  }

  /** The passes that an entry has used are the attempts with progress at it since it was accepted, in every state of every
      run. */
  lemma {:induction false} PassesAreCounted(passes: nat, events: seq<RevisitEvent>, n: nat, x: Visit)
    requires passes > 0 && n <= |events| && Present(RevisitRun(passes, events, n), x)
    ensures x.attempts == Progresses(passes, events, n, KeyOf(x)) < passes
  {
    hide Conserved, RevisitStep;
    RevisitsAreConserved(passes, events, n);
    PresentIsActive(passes, RevisitRun(passes, events, n), x);
    if n > 0 {
      RevisitsAreConserved(passes, events, n - 1);
      var s, e := RevisitRun(passes, events, n - 1), events[n - 1];
      StepEntries(passes, s, e, x);
      if e.Attempted? && e.entry in s.serving && KeyOf(e.entry) == KeyOf(x) && e.report.Progress? {
        PassesAreCounted(passes, events, n - 1, e.entry);
      } else if Present(s, x) {
        PresentIsActive(passes, s, x);
        PassesAreCounted(passes, events, n - 1, x);
      }
    }
  }

  /** The end of an entry, and what comes before it.  An attempt at an entry with an id of the right size retires it exactly
      when it makes progress and is the one that brings the attempts with progress to the number of passes; an attempt that
      completes ends it as completed; any other leaves its key active.  An id of the wrong size is retired at once. */
  lemma RetiredExactly(passes: nat, events: seq<RevisitEvent>, n: nat)
    requires passes > 0 && n < |events| && events[n].Attempted?
    requires TriedAt(passes, events, n, KeyOf(events[n].entry))
    ensures var s, t, x := RevisitRun(passes, events, n), RevisitRun(passes, events, n + 1), events[n].entry;
            var key, report := KeyOf(x), events[n].report;
            var last := report.Progress? && Progresses(passes, events, n + 1, key) == passes;
            && t.retired == s.retired + (if |x.id| != 16 || last then 1 else 0)
            && t.completed == s.completed + (if |x.id| == 16 && report.Completed? then 1 else 0)
            && t.accepted == s.accepted && x !in t.serving
            && (key in t.active <==> |x.id| == 16 && !report.Completed? && !last)
            && (key in t.active ==>
                  t.queue == s.queue + [x.(attempts := x.attempts + if report.Progress? then 1 else 0)])
            && (key !in t.active ==> t.queue == s.queue)
  {
    var s, x := RevisitRun(passes, events, n), events[n].entry;
    RevisitsAreConserved(passes, events, n);
    PassesAreCounted(passes, events, n, x);
    PresentIsActive(passes, s, x);
    hide Conserved;
  }

  /** Nothing but an attempt ends an entry. */
  lemma OnlyAttemptsEnd(passes: nat, events: seq<RevisitEvent>, n: nat)
    requires passes > 0 && n < |events| && !events[n].Attempted?
    ensures var s, t := RevisitRun(passes, events, n), RevisitRun(passes, events, n + 1);
            t.retired == s.retired && t.completed == s.completed && s.active <= t.active
  {
  }

  /** So an entry sees at most as many attempts with progress as there are passes: fewer while it is active. */
  lemma {:induction false} PassesAreBounded(passes: nat, events: seq<RevisitEvent>, n: nat, key: RevisitKey)
    requires passes > 0 && n <= |events|
    ensures Progresses(passes, events, n, key) <= passes
    ensures key in RevisitRun(passes, events, n).active ==> Progresses(passes, events, n, key) < passes
  {
    hide RevisitStep, Conserved, RevisitRun, Present;
    RevisitsAreConserved(passes, events, n);
    var t := RevisitRun(passes, events, n);
    if key in t.active {
      var x := ActiveEntry(passes, t, key);
      PassesAreCounted(passes, events, n, x);
    }
    if n > 0 {
      PassesAreBounded(passes, events, n - 1, key);
      if TriedAt(passes, events, n - 1, key) {
        RevisitsAreConserved(passes, events, n - 1);
        ServedIsPresent(RevisitRun(passes, events, n - 1), events[n - 1].entry);
        PresentIsActive(passes, RevisitRun(passes, events, n - 1), events[n - 1].entry);
      }
    }
  }

  lemma ServedIsPresent(s: Revisits, x: Visit)
    ensures x in s.serving ==> Present(s, x)
  {
  }

  lemma ActiveEntry(passes: nat, s: Revisits, key: RevisitKey) returns (x: Visit)
    requires Conserved(passes, s) && key in s.active
    ensures Present(s, x) && KeyOf(x) == key
  {
    assert Listed(s, key);
    if e :| e in s.serving && KeyOf(e) == key {
      x := e;
    } else {
      var i :| 0 <= i < |s.queue| && KeyOf(s.queue[i]) == key;
      x := s.queue[i];
    }
  }

  // ---------------------------------------------------------------- the order of the queue

  /** `k` times the next entry is taken. */
  function TakeMany(s: Revisits, k: nat): (r: Revisits)
    requires k <= |s.queue|
    ensures |r.queue| == |s.queue| - k
  {
    if k == 0 then s else Take(TakeMany(s, k - 1))
  }

  lemma {:induction false} TakenInOrder(s: Revisits, k: nat)
    requires k <= |s.queue|
    ensures TakeMany(s, k).queue == s.queue[k..]
  {
    if k > 0 {
      TakenInOrder(s, k - 1);
    }
  }

  /** A new entry waits for everything queued before it, and for nothing if it is given priority: it is the one that is
      taken after that. */
  lemma NewEntryWaits(s: Revisits, host: string, name: string, id: bytes, prioritize: bool)
    requires (host, name) !in s.active
    ensures var r, ahead := Enqueue(s, host, name, id, prioritize), if prioritize then 0 else |s.queue|;
            && ahead < |r.queue| && |r.queue| == |s.queue| + 1
            && Visit(host, name, id, 0) in Take(TakeMany(r, ahead)).serving
            && (forall k :: 0 <= k < |s.queue| ==> s.queue[k] in r.queue)
  {
    var r, ahead := Enqueue(s, host, name, id, prioritize), if prioritize then 0 else |s.queue|;
    TakenInOrder(r, ahead);
    forall k | 0 <= k < |s.queue| ensures s.queue[k] in r.queue {
      assert r.queue[if prioritize then k + 1 else k] == s.queue[k];
    }
  }

  /** A known key changes nothing. */
  lemma KnownKeyStays(passes: nat, events: seq<RevisitEvent>, n: nat)
    requires n < |events| && events[n].Incomplete?
    requires (events[n].host, events[n].name) in RevisitRun(passes, events, n).active
    ensures RevisitRun(passes, events, n + 1) == RevisitRun(passes, events, n)
  {
  }

  // ---------------------------------------------------------------- attempts of the main thread

  /** One attempt: the head of the queue is taken and dealt with. */
  function Attempt(passes: nat, s: Revisits, report: Report): (r: Revisits)
    requires s.queue != []
  {
    Conclude(passes, Take(s), s.queue[0], report)
  }

  /** Up to `n` attempts, while there are entries. */
  function Attempts(passes: nat, s: Revisits, reports: nat -> Report, n: nat): (r: Revisits)
  {
    if n == 0 then s
    else
      var p := Attempts(passes, s, reports, n - 1);
      if p.queue == [] then p else Attempt(passes, p, reports(n - 1))
  }

  lemma AttemptKeeps(passes: nat, s: Revisits, report: Report)
    requires Conserved(passes, s) && s.queue != []
    ensures var r := Attempt(passes, s, report);
            && Conserved(passes, r) && r.serving == s.serving && r.accepted == s.accepted
            && |r.queue| + r.completed + r.retired == |s.queue| + s.completed + s.retired
            && s.completed <= r.completed && s.retired <= r.retired
  {
    TakeKeeps(passes, s);
    ConcludeKeeps(passes, Take(s), s.queue[0], report);
    assert s.queue[0] !in s.serving;
    assert s.serving + {s.queue[0]} - {s.queue[0]} == s.serving;
    hide Conserved;
  }

  /** The passes that the entries of a queue have left. */
  function PassesLeft(passes: nat, queue: seq<Visit>): (k: int)
  {
    if queue == [] then 0 else passes - queue[0].attempts + PassesLeft(passes, queue[1..])
  }

  lemma {:induction false} PassesLeftSnoc(passes: nat, queue: seq<Visit>, x: Visit)
    ensures PassesLeft(passes, queue + [x]) == PassesLeft(passes, queue) + passes - x.attempts
  {
    if queue == [] {
      assert PassesLeft(passes, []) == 0 && [x][1..] == [];
    } else {
      PassesLeftSnoc(passes, queue[1..], x);
      assert (queue + [x])[1..] == queue[1..] + [x];
    }
  }

  lemma {:induction false} PassesLeftBounds(passes: nat, queue: seq<Visit>)
    requires forall i :: 0 <= i < |queue| ==> queue[i].attempts < passes
    ensures |queue| <= PassesLeft(passes, queue) <= passes * |queue|
  {
    if queue != [] {
      PassesLeftBounds(passes, queue[1..]);
      assert passes * |queue| == passes * |queue[1..]| + passes;
    }
  }

  lemma {:induction false} ProgressUsesPasses(passes: nat, s: Revisits, reports: nat -> Report, n: nat)
    requires Conserved(passes, s) && forall i :: !reports(i).NoProgress?
    ensures Conserved(passes, Attempts(passes, s, reports, n))
    ensures var r := Attempts(passes, s, reports, n);
            r.queue == [] || n + PassesLeft(passes, r.queue) <= PassesLeft(passes, s.queue)
  {
    hide Conserved, Attempt, PassesLeft;
    if n > 0 {
      ProgressUsesPasses(passes, s, reports, n - 1);
      var p := Attempts(passes, s, reports, n - 1);
      if p.queue != [] {
        AttemptKeeps(passes, p, reports(n - 1));
        QueuedHavePasses(passes, p);
        AttemptUses(passes, p, reports(n - 1));
      }
    }
  }

  /** When every attempt completes its entry or makes progress, `passes` attempts for each entry empty the queue. */
  lemma ProgressEmptiesQueue(passes: nat, s: Revisits, reports: nat -> Report, n: nat)
    requires Conserved(passes, s) && (forall i :: !reports(i).NoProgress?) && n >= passes * |s.queue|
    ensures Attempts(passes, s, reports, n).queue == []
  {
    var r := Attempts(passes, s, reports, n);
    ProgressUsesPasses(passes, s, reports, n);
    QueuedHavePasses(passes, s);
    QueuedHavePasses(passes, r);
    PassesLeftBounds(passes, s.queue);
    PassesLeftBounds(passes, r.queue);
    hide Conserved, Attempts, PassesLeft;
  }

  lemma QueuedHavePasses(passes: nat, s: Revisits)
    requires Conserved(passes, s)
    ensures forall i :: 0 <= i < |s.queue| ==> s.queue[i].attempts < passes
  {
  }

  lemma AttemptUses(passes: nat, s: Revisits, report: Report)
    requires s.queue != [] && s.queue[0].attempts < passes && !report.NoProgress?
    ensures PassesLeft(passes, Attempt(passes, s, report).queue) < PassesLeft(passes, s.queue)
  {
    var x := s.queue[0];
    PassesLeftSnoc(passes, s.queue[1..], x.(attempts := x.attempts + 1));
  }

  /** What has been settled for good. */
  function Settled(s: Revisits): (n: nat)
  {
    s.completed + s.retired
  }

  /** A pass over the queue: as many attempts as there are entries at its start, fewer only when the queue runs empty or a stop
      is asked for, and none without feedback. */
  ghost predicate IsPass(passes: nat, s: Revisits, t: Revisits, feedback: bool, reports: nat -> Report, stop: nat -> bool)
  {
    exists n: nat :: EndsPass(passes, s, t, feedback, reports, stop, n)
  }

  ghost predicate EndsPass(passes: nat, s: Revisits, t: Revisits, feedback: bool, reports: nat -> Report, stop: nat -> bool,
                           n: nat)
  {
    && t == Attempts(passes, s, reports, n) && n <= |s.queue|
    && (if feedback then n == |s.queue| || t.queue == [] || stop(n) else n == 0)
  }

  lemma PassIs(passes: nat, s: Revisits, t: Revisits, feedback: bool, reports: nat -> Report, stop: nat -> bool, n: nat)
    requires EndsPass(passes, s, t, feedback, reports, stop, n)
    ensures IsPass(passes, s, t, feedback, reports, stop)
  {
  }

  lemma {:induction false} Triangle(a: nat, b: nat)
    requires a <= b
    ensures a * (a + 1) <= b * (b + 1)
  {
    if a < b {
      Triangle(a, b - 1);
      assert b * (b + 1) == (b - 1) * b + 2 * b;
    }
  }

  /** Twice the calls that `n` entries can need. */
  function Budget(n: nat): (b: nat)
  {
    n * (n + 1)
  }

  lemma BudgetIs(n: nat)
    ensures Budget(n) == n * (n + 1)
  {
  }

  lemma FewerCalls(size: nat, left: nat, made: nat)
    requires made <= size && left <= size
    ensures 2 * made <= Budget(size)
    ensures left < size ==> 2 * made + Budget(left) <= Budget(size)
  {
    if size > 0 {
      Triangle(0, size - 1);
      assert size * (size + 1) == (size - 1) * size + 2 * size;
      if left < size {
        Triangle(left, size - 1);
      }
    }
  }

  class RevisitEntry {
    const host: string
    const name: string
    const id: bytes
    var attempts: nat

    constructor (host: string, name: string, id: bytes)
      ensures View() == Visit(host, name, id, 0)
    {
      this.host, this.name, this.id, attempts := host, name, id, 0;
    }

    ghost function View(): (v: Visit)
      reads this
    {
      Visit(host, name, id, attempts)
    }
  }

  ghost function Views(queue: seq<RevisitEntry>): (v: seq<Visit>)
    reads queue
    ensures |v| == |queue| && forall i :: 0 <= i < |queue| ==> v[i] == queue[i].View()
  {
    seq(|queue|, i requires 0 <= i < |queue| reads queue => queue[i].View())
  }

  lemma ViewsSnoc(queue: seq<RevisitEntry>, entry: RevisitEntry)
    ensures Views(queue + [entry]) == Views(queue) + [entry.View()]
    ensures Views([entry] + queue) == [entry.View()] + Views(queue)
  {
  }

  lemma ViewsTail(queue: seq<RevisitEntry>)
    requires queue != []
    ensures Views(queue[1..]) == Views(queue)[1..]
  {
  }

  lemma ViewsApart(queue: seq<RevisitEntry>, entry: RevisitEntry, before: seq<Visit>)
    requires |before| == |queue| && forall i :: 0 <= i < |queue| ==> before[i] == queue[i].View()
    ensures Views(queue) == before
  {
  }

  /** The deque, the active keys and the counters.  An entry taken out is in service until it is put back or concluded. */
  class RevisitSchedule {
    const passes: nat
    var queue: seq<RevisitEntry>
    var activeKeys: set<RevisitKey>
    var sentCount: nat
    var failed: nat
    ghost var serving: set<Visit>
    ghost var accepted: nat
    ghost var completed: nat
    ghost var retired: nat

    ghost predicate Valid()
      reads this, queue
    {
      passes > 0 && Conserved(passes, View())
    }

    ghost function View(): (s: Revisits)
      reads this, queue
    {
      Revisits(Views(queue), activeKeys, serving, accepted, completed, retired)
    }

    constructor (passes: nat)
      requires passes > 0
      ensures Valid() && this.passes == passes && View() == NO_REVISITS && sentCount == failed == 0
    {
      this.passes := passes;
      queue, activeKeys, sentCount, failed := [], {}, 0, 0;
      serving, accepted, completed, retired := {}, 0, 0, 0;
      new;
      NothingIsConserved(passes);
    }

    /** `_enqueue_revisit`. */
    method EnqueueRevisit(host: string, name: string, id: bytes, prioritize: bool)
      requires Valid()
      modifies this`queue, this`activeKeys, this`accepted
      ensures Valid() && View() == Enqueue(old(View()), host, name, id, prioritize)
    {
      EnqueueKeeps(passes, View(), host, name, id, prioritize);
      hide Conserved, Views;
      if (host, name) in activeKeys {
        return;
      }
      hide Enqueue;
      AddEntry(host, name, id, prioritize);
    }

    /** An entry of a new key comes in, at the front or at the end. */
    method AddEntry(host: string, name: string, id: bytes, prioritize: bool)
      requires (host, name) !in activeKeys
      modifies this`queue, this`activeKeys, this`accepted
      ensures View() == Enqueue(old(View()), host, name, id, prioritize)
    {
      hide Views;
      ghost var before := Views(queue);
      var entry := new RevisitEntry(host, name, id);
      assert Views(queue) == before;
      ViewsSnoc(queue, entry);
      queue := if prioritize then [entry] + queue else queue + [entry];
      activeKeys := activeKeys + {(host, name)};
      accepted := accepted + 1;
    }

    /** `revisit_queue.popleft()`. */
    method TakeEntry() returns (entry: RevisitEntry)
      requires Valid() && queue != []
      modifies this`queue, this`serving
      ensures Valid() && View() == Take(old(View()))
      ensures entry == old(queue[0]) && queue == old(queue[1..]) && entry !in queue
      ensures entry.View() == old(View()).queue[0] && entry.View() in serving
    {
      TakeKeeps(passes, View());
      ViewsTail(queue);
      HeadIsAlone();
      hide Conserved, Views;
      entry := queue[0];
      assert View().queue[0] == entry.View();
      queue := queue[1..];
      serving := serving + {entry.View()};
    }

    lemma HeadIsAlone()
      requires Valid() && queue != []
      ensures queue[0] !in queue[1..] && View().queue[0] == queue[0].View()
    {
      assert forall i :: 0 <= i < |queue| ==> View().queue[i] == queue[i].View();
    }

    /** A worker finds the primary transfer's key and puts the entry back untried. */
    method GiveBack(entry: RevisitEntry)
      requires Valid() && entry !in queue && entry.View() in serving
      modifies this`queue, this`serving
      ensures Valid() && View() == PutBack(old(View()), entry.View()) && queue == old(queue) + [entry]
    {
      AttemptsLeft(passes, View(), entry.View());
      ReturnKeeps(passes, View(), entry.View(), entry.View());
      ViewsSnoc(queue, entry);
      hide Conserved, Views;
      serving := serving - {entry.View()};
      queue := queue + [entry];
    }

    /** What an attempt does with the entry it took: whether `send_file` was called, and whether the entry completed or was
        retired. */
    method ConcludeEntry(entry: RevisitEntry, report: Report) returns (called: bool, done: bool, gone: bool)
      requires Valid() && entry !in queue && entry.View() in serving
      modifies this, entry
      ensures Valid() && View() == Conclude(passes, old(View()), old(entry.View()), report)
      ensures called <==> |entry.id| == ID_BYTES
      ensures completed == old(completed) + (if done then 1 else 0) && retired == old(retired) + (if gone then 1 else 0)
      ensures sentCount == old(sentCount) + (if done then 1 else 0) && failed == old(failed) + (if gone then 1 else 0)
      ensures done <==> called && report.Completed?
      ensures gone <==> !called || (report.Progress? && old(entry.attempts) + 1 >= passes)
      ensures queue == if done || gone then old(queue) else old(queue) + [entry]
      ensures !done && !gone ==> entry.attempts == old(entry.attempts) + if report.Progress? then 1 else 0
    {
      ConcludeKeeps(passes, View(), entry.View(), report);
      hide Conserved, Views, Conclude;
      called, done, gone := |entry.id| == ID_BYTES, false, false;
      if called && report.Completed? {
        done := true;
        LeaveCompleted(entry, report);
      } else if called && report.NoProgress? {
        ComeBack(entry, report, false);
      } else if !called || entry.attempts + 1 >= passes {
        gone := true;
        LeaveRetired(entry, report);
      } else {
        ComeBack(entry, report, true);
      }
    }

    method LeaveCompleted(entry: RevisitEntry, report: Report)
      requires |entry.id| == ID_BYTES && report.Completed?
      modifies this`sentCount, this`completed, this`activeKeys, this`serving
      ensures View() == Conclude(passes, old(View()), old(entry.View()), report)
      ensures completed == old(completed) + 1 && sentCount == old(sentCount) + 1
    {
      hide Views;
      sentCount, completed := sentCount + 1, completed + 1;
      Settle(entry);
    }

    method LeaveRetired(entry: RevisitEntry, report: Report)
      requires |entry.id| != ID_BYTES || (!report.Completed? && !report.NoProgress? && entry.attempts + 1 >= passes)
      modifies this`failed, this`retired, this`activeKeys, this`serving
      ensures View() == Conclude(passes, old(View()), old(entry.View()), report)
      ensures retired == old(retired) + 1 && failed == old(failed) + 1
    {
      hide Views;
      failed, retired := failed + 1, retired + 1;
      Settle(entry);
    }

    /** The entry comes back at the end of the queue, with a pass used if it was tried. */
    method ComeBack(entry: RevisitEntry, report: Report, tried: bool)
      requires |entry.id| == ID_BYTES && !report.Completed? && entry !in queue
      requires if tried then !report.NoProgress? && entry.attempts + 1 < passes else report.NoProgress?
      modifies this`queue, this`serving, entry`attempts
      ensures View() == Conclude(passes, old(View()), old(entry.View()), report)
      ensures queue == old(queue) + [entry] && entry.attempts == old(entry.attempts) + if tried then 1 else 0
    {
      hide Views;
      ghost var was, before := entry.View(), Views(queue);
      if tried {
        entry.attempts := entry.attempts + 1;
      }
      assert Views(queue) == before by {
        ViewsApart(queue, entry, before);
      }
      Requeue(entry, was);
    }

    /** An entry leaves service and its key becomes free. */
    method Settle(entry: RevisitEntry)
      modifies this`activeKeys, this`serving
      ensures View() == old(View()).(active := old(activeKeys) - {KeyOf(entry.View())},
                                     serving := old(serving) - {entry.View()})
    {
      hide Views;
      activeKeys := activeKeys - {(entry.host, entry.name)};
      serving := serving - {entry.View()};
    }

    /** An entry leaves service for the end of the queue. */
    method Requeue(entry: RevisitEntry, ghost was: Visit)
      modifies this`queue, this`serving
      ensures View() == old(View()).(queue := old(View()).queue + [entry.View()], serving := old(serving) - {was})
      ensures queue == old(queue) + [entry]
    {
      ViewsSnoc(queue, entry);
      hide Views;
      queue := queue + [entry];
      serving := serving - {was};
    }

    lemma QueueLength()
      ensures |View().queue| == |queue| && Settled(View()) == completed + retired && (queue == [] <==> View().queue == [])
    {
    }

    /** One turn of the loop in `_run_revisit_attempts`. */
    method AttemptHead(report: Report) returns (called: bool, done: bool, gone: bool)
      requires Valid() && queue != []
      modifies this, queue[0]
      ensures Valid() && View() == Attempt(passes, old(View()), report)
      ensures called <==> |old(queue[0]).id| == ID_BYTES
      ensures completed == old(completed) + (if done then 1 else 0) && retired == old(retired) + (if gone then 1 else 0)
      ensures sentCount == old(sentCount) + (if done then 1 else 0) && failed == old(failed) + (if gone then 1 else 0)
      ensures |queue| + (if done then 1 else 0) + (if gone then 1 else 0) == |old(queue)|
      ensures accepted == old(accepted) && serving == old(serving)
      ensures forall i :: 0 <= i < |queue| ==> queue[i] in old(queue)
    {
      AttemptKeeps(passes, View(), report);
      hide Conserved, Views, Conclude;
      var entry := TakeEntry();
      called, done, gone := ConcludeEntry(entry, report);
    }

    /** `_run_revisit_attempts` of the main thread: at most `maxAttempts` attempts, fewer only when the queue runs empty
        or a stop is asked for. */
    method RunRevisitAttempts(maxAttempts: int, feedback: bool, reports: nat -> Report, stop: nat -> bool)
      returns (completedNow: nat, retiredNow: nat, calls: nat, ghost attempts: nat)
      requires Valid()
      modifies this, queue
      ensures Valid() && View() == Attempts(passes, old(View()), reports, attempts)
      ensures calls <= attempts && (attempts > 0 ==> feedback && attempts <= maxAttempts)
      ensures feedback && attempts < maxAttempts ==> queue == [] || stop(attempts)
      ensures completed == old(completed) + completedNow && retired == old(retired) + retiredNow
      ensures sentCount == old(sentCount) + completedNow && failed == old(failed) + retiredNow
      ensures |queue| + completedNow + retiredNow == |old(queue)|
      ensures accepted == old(accepted) && serving == old(serving)
      ensures forall i :: 0 <= i < |queue| ==> queue[i] in old(queue)
    {
      hide Conserved, Views, Attempt, RevisitSchedule.Valid, RevisitSchedule.View;
      completedNow, retiredNow, calls, attempts := 0, 0, 0, 0;
      if !feedback {
        return;
      }
      var attemptsRemaining := if maxAttempts < 0 then 0 else maxAttempts;
      ghost var total := attemptsRemaining;
      var turn: nat := 0;
      while attemptsRemaining > 0 && !stop(turn)
        invariant 0 <= attemptsRemaining && turn == attempts == total - attemptsRemaining
        invariant Valid() && View() == Attempts(passes, old(View()), reports, attempts)
        invariant calls <= attempts
        invariant completed == old(completed) + completedNow && retired == old(retired) + retiredNow
        invariant sentCount == old(sentCount) + completedNow && failed == old(failed) + retiredNow
        invariant |queue| + completedNow + retiredNow == |old(queue)|
        invariant accepted == old(accepted) && serving == old(serving)
        invariant forall i :: 0 <= i < |queue| ==> queue[i] in old(queue)
        decreases attemptsRemaining
      {
        if queue == [] {
          break;
        }
        QueueLength();
        assert queue[0] in old(queue);
        var called, done, gone := AttemptHead(reports(turn));
        if called {
          calls := calls + 1;
        }
        if done {
          completedNow := completedNow + 1;
        }
        if gone {
          retiredNow := retiredNow + 1;
        }
        attemptsRemaining, turn, attempts := attemptsRemaining - 1, turn + 1, attempts + 1;
      }
    }

    /** The final drain: passes over the queue until it is empty or a pass settles nothing, each of them as many attempts as
        there are entries at its start unless a stop is asked for.  It ends, and from `n` entries it makes at most
        n (n + 1) / 2 `send_file` calls.  `states` are the states before each pass and at the end. */
    method FinalDrain(feedback: nat -> bool, reports: nat -> nat -> Report, stop: nat -> nat -> bool)
      returns (calls: nat, ghost states: seq<Revisits>)
      requires Valid()
      modifies this, queue
      ensures Valid() && accepted == old(accepted) && serving == old(serving)
      ensures 2 * calls <= |old(queue)| * (|old(queue)| + 1)
      ensures sentCount - completed == old(sentCount - completed) && failed - retired == old(failed - retired)
      ensures |states| > 0 && states[0] == old(View()) && states[|states| - 1] == View()
      ensures forall i :: 0 <= i < |states| - 1 ==>
                IsPass(passes, states[i], states[i + 1], feedback(i), reports(i), stop(i)) && states[i].queue != []
      ensures forall i :: 0 <= i < |states| - 2 ==> Settled(states[i]) < Settled(states[i + 1])
      ensures queue == [] || (|states| > 1 && Settled(states[|states| - 2]) == Settled(View()))
    {
      hide Conserved, Views, Attempts, Budget, IsPass, RevisitSchedule.Valid, RevisitSchedule.View;
      calls := 0;
      QueueLength();
      states := [View()];
      var pass: nat := 0;
      while queue != []
        invariant Valid() && accepted == old(accepted) && serving == old(serving)
        invariant 2 * calls + Budget(|queue|) <= Budget(|old(queue)|)
        invariant sentCount - completed == old(sentCount - completed) && failed - retired == old(failed - retired)
        invariant forall i :: 0 <= i < |queue| ==> queue[i] in old(queue)
        invariant |states| == pass + 1 && states[0] == old(View()) && states[pass] == View()
        invariant forall i :: 0 <= i < pass ==>
                    IsPass(passes, states[i], states[i + 1], feedback(i), reports(i), stop(i)) && states[i].queue != []
        invariant forall i :: 0 <= i < pass ==> Settled(states[i]) < Settled(states[i + 1])
        decreases |queue|
      {
        var size := |queue|;
        QueueLength();
        var completedNow, retiredNow, made, attempts := RunRevisitAttempts(size, feedback(pass), reports(pass), stop(pass));
        QueueLength();
        PassIs(passes, states[pass], View(), feedback(pass), reports(pass), stop(pass), attempts);
        calls, pass, states := calls + made, pass + 1, states + [View()];
        FewerCalls(size, |queue|, made);
        if completedNow == 0 && retiredNow == 0 {
          break;
        }
      }
      BudgetIs(|old(queue)|);
    }

    /** What is left counts as failed, and every accepted entry is accounted for. */
    method Finish() returns (remaining: nat)
      requires Valid() && serving == {}
      modifies this`queue, this`activeKeys, this`failed
      ensures remaining == |old(queue)| && queue == [] && activeKeys == {}
      ensures accepted == completed + retired + remaining && failed == old(failed) + remaining
    {
      remaining := |queue|;
      queue, activeKeys := [], {};
      failed := failed + remaining;
    }
  }
}
