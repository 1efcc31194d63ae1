/** The browser's price store: latest values on every update, and per-key history buffers appended at most
    every five seconds.  Prices and spreads are two panels of the same kind over one throttle table. */
module PriceHistory {
  import opened Options
  import opened MinGap
  import KeyedGate

  const HISTORY_SIZE := 500
  const HISTORY_THROTTLE_MS := 5000

  datatype Panel<T> = Panel(latest: map<string, T>, history: map<string, seq<T>>, last: map<string, int>)

  function Start<T>(): Panel<T> {
    Panel(map[], map[], map[])
  }

  /** What happens to one panel.  Foreign is an update of the other panel, seen only by the throttle. */
  datatype Event<T> =
    | Own(key: string, entry: T, now: int)
    | Foreign(key: string, now: int)
    | Snap(entries: seq<(string, T)>)
    | Seed(rows: seq<(string, T)>)
    | Reset

  function Take<T>(s: seq<T>, n: nat): (r: seq<T>)
    ensures |r| == if |s| > n then n else |s|
  {
    if |s| > n then s[..n] else s
  }

  function HistoryOf<T>(history: map<string, seq<T>>, key: string): seq<T> {
    if key in history then history[key] else []
  }

  /** Newest first, at most HISTORY_SIZE. */
  function Append<T>(buffer: Option<seq<T>>, entry: T): seq<T> {
    Take(if buffer.Some? then [entry] + buffer.value else [entry], HISTORY_SIZE)
  }

  function BufferOf<T>(history: map<string, seq<T>>, key: string): Option<seq<T>> {
    if key in history then Some(history[key]) else None
  }

  /** The rows of one key, in order. */
  function RowsOf<T>(rows: seq<(string, T)>, key: string): seq<T> {
    if rows == [] then []
    else
      var before := RowsOf(rows[..|rows| - 1], key);
      if rows[|rows| - 1].0 == key then before + [rows[|rows| - 1].1] else before
  }

  function KeysOf<T>(rows: seq<(string, T)>): set<string> {
    set i | 0 <= i < |rows| :: rows[i].0
  }

  /** A record built from key-value entries: the last entry of a key wins. */
  function FromEntries<T>(entries: seq<(string, T)>): map<string, T> {
    map key | key in KeysOf(entries) :: LastOf(entries, key)
  }

  function LastOf<T>(entries: seq<(string, T)>, key: string): T
    requires key in KeysOf(entries)
  {
    var n := |entries| - 1;
    if entries[n].0 == key then entries[n].1
    else
      assert key in KeysOf(entries[..n]);
      LastOf(entries[..n], key)
  }

  /** Seeded buffers: the first HISTORY_SIZE rows of each key. */
  function Grouped<T>(rows: seq<(string, T)>): map<string, seq<T>> {
    map key | key in KeysOf(rows) :: Take(RowsOf(rows, key), HISTORY_SIZE)
  }

  function Step<T>(p: Panel<T>, e: Event<T>): Panel<T> {
    match e
    case Own(key, entry, now) =>
      Panel(p.latest[key := entry],
            if KeyedGate.Open(p.last, key, now, HISTORY_THROTTLE_MS)
            then p.history[key := Append(BufferOf(p.history, key), entry)] else p.history,
            KeyedGate.Step(p.last, key, At(now, HISTORY_THROTTLE_MS)))
    case Foreign(key, now) => p.(last := KeyedGate.Step(p.last, key, At(now, HISTORY_THROTTLE_MS)))
    case Snap(entries) => p.(latest := FromEntries(entries))
    case Seed(rows) => p.(history := p.history + Grouped(rows))
    case Reset => Start()
  }

  function Run<T>(events: seq<Event<T>>): Panel<T> {
    if events == [] then Start() else Step(Run(events[..|events| - 1]), events[|events| - 1])
  }

  lemma RunSnoc<T>(events: seq<Event<T>>, e: Event<T>)
    ensures Run(events + [e]) == Step(Run(events), e)
  {
    assert (events + [e])[..|events|] == events;
  }

  /** A reset forgets everything, the throttle included: what follows is a run of its own. */
  lemma {:induction false} ResetStartsOver<T>(before: seq<Event<T>>, after: seq<Event<T>>)
    ensures Run(before + [Reset] + after) == Run(after)
  {
    if after == [] {
      RunSnoc(before, Reset);
      assert before + [Reset] + after == before + [Reset];
    } else {
      var n := |after| - 1;
      ResetStartsOver(before, after[..n]);
      assert before + [Reset] + after == before + [Reset] + after[..n] + [after[n]];
      RunSnoc(before + [Reset] + after[..n], after[n]);
    }
  }

  ghost predicate Capped<T>(history: map<string, seq<T>>) {
    forall key :: key in history ==> |history[key]| <= 500
  }

  /** No buffer ever holds more than 500 entries, whatever is seeded. */
  lemma {:induction false} HistoryIsCapped<T>(events: seq<Event<T>>)
    ensures Capped(Run(events).history)
  {
    if events != [] {
      HistoryIsCapped(events[..|events| - 1]);
    }
  }

  /** The updates of this panel under one key, and the updates of both panels that the throttle sees. */
  function Arrivals<T>(events: seq<Event<T>>, key: string): seq<T> {
    if events == [] then []
    else
      var e, before := events[|events| - 1], Arrivals(events[..|events| - 1], key);
      if e.Own? && e.key == key then before + [e.entry] else before
  }

  function GateEvents<T>(events: seq<Event<T>>): seq<(string, Request)> {
    if events == [] then []
    else
      var e, before := events[|events| - 1], GateEvents(events[..|events| - 1]);
      if e.Own? || e.Foreign? then before + [(e.key, At(e.now, HISTORY_THROTTLE_MS))] else before
  }

  function Requests<T>(events: seq<Event<T>>, key: string): seq<Request> {
    KeyedGate.RequestsOf(GateEvents(events), key)
  }

  predicate NoReset<T>(events: seq<Event<T>>) {
    forall i :: 0 <= i < |events| ==> !events[i].Reset?
  }

  /** No update of the other panel is filed under this key. */
  predicate Unshared<T>(events: seq<Event<T>>, key: string) {
    forall i :: 0 <= i < |events| ==> !(events[i].Foreign? && events[i].key == key)
  }

  predicate NotSeeded<T>(events: seq<Event<T>>, key: string) {
    forall i :: 0 <= i < |events| && events[i].Seed? ==> key !in KeysOf(events[i].rows)
  }

  /** The throttle table is the table of the common gate. */
  lemma {:induction false} TableIsGate<T>(events: seq<Event<T>>)
    requires NoReset(events)
    ensures Run(events).last == KeyedGate.Run(GateEvents(events))
  {
    if events != [] {
      var e, before := events[|events| - 1], events[..|events| - 1];
      TableIsGate(before);
      if e.Own? || e.Foreign? {
        KeyedGate.RunSnoc(GateEvents(before), e.key, At(e.now, HISTORY_THROTTLE_MS));
      }
    }
  }

  lemma {:induction false} OneRequestPerArrival<T>(events: seq<Event<T>>, key: string)
    requires Unshared(events, key)
    ensures |Requests(events, key)| == |Arrivals(events, key)|
  {
    if events != [] {
      var e, before := events[|events| - 1], events[..|events| - 1];
      OneRequestPerArrival(before, key);
      assert !(e.Foreign? && e.key == key);
      if e.Own? || e.Foreign? {
        KeyedGate.RequestsSnoc(GateEvents(before), e.key, At(e.now, HISTORY_THROTTLE_MS), key);
      }
    }
  }

  /** The picked entries, newest first. */
  function NewestFirst<T>(entries: seq<T>, picked: seq<nat>): (r: seq<T>)
    requires forall i :: 0 <= i < |picked| ==> picked[i] < |entries|
    ensures |r| == |picked|
    ensures forall i :: 0 <= i < |picked| ==> r[i] == entries[picked[|picked| - 1 - i]]
  {
    if picked == [] then [] else [entries[picked[|picked| - 1]]] + NewestFirst(entries, picked[..|picked| - 1])
  }

  /** What the five-second gate lets through of the key's updates, newest first. */
  function Appended<T>(events: seq<Event<T>>, key: string): seq<T>
    requires Unshared(events, key)
  {
    OneRequestPerArrival(events, key);
    NewestFirst(Arrivals(events, key), Accepted(Requests(events, key)))
  }

  lemma ArrivalsSnoc<T>(events: seq<Event<T>>, e: Event<T>, key: string)
    ensures Arrivals(events + [e], key) == if e.Own? && e.key == key then Arrivals(events, key) + [e.entry] else Arrivals(events, key)
    ensures Requests(events + [e], key) == if (e.Own? || e.Foreign?) && e.key == key then Requests(events, key) + [At(e.now, HISTORY_THROTTLE_MS)] else Requests(events, key)
  {
    assert (events + [e])[..|events|] == events;
    if e.Own? || e.Foreign? {
      KeyedGate.RequestsSnoc(GateEvents(events), e.key, At(e.now, HISTORY_THROTTLE_MS), key);
    }
  }

  lemma {:induction false} NewestFirstSnoc<T>(entries: seq<T>, picked: seq<nat>, entry: T)
    requires forall i :: 0 <= i < |picked| ==> picked[i] < |entries|
    ensures NewestFirst(entries + [entry], picked) == NewestFirst(entries, picked)
    ensures NewestFirst(entries + [entry], picked + [|entries|]) == [entry] + NewestFirst(entries, picked)
  {
  }

  lemma GateAgrees<T>(events: seq<Event<T>>, key: string, now: int)
    requires NoReset(events)
    ensures var requests := Requests(events, key);
            KeyedGate.Open(Run(events).last, key, now, HISTORY_THROTTLE_MS) <==> |requests| in Accepted(requests + [At(now, HISTORY_THROTTLE_MS)])
  {
    TableIsGate(events);
    KeyedGate.RunMirrors(GateEvents(events), key);
    KeyedGate.StepMirrors(Run(events).last, key, Requests(events, key), At(now, HISTORY_THROTTLE_MS));
  }

  /** One more update of the key is appended exactly when the gate lets it through. */
  lemma AppendedOwn<T>(events: seq<Event<T>>, key: string, entry: T, now: int)
    requires Unshared(events, key) && NoReset(events)
    ensures Unshared(events + [Own(key, entry, now)], key)
    ensures Appended(events + [Own(key, entry, now)], key)
            == (if KeyedGate.Open(Run(events).last, key, now, HISTORY_THROTTLE_MS) then [entry] else []) + Appended(events, key)
  {
    ArrivalsSnoc(events, Own(key, entry, now), key);
    OneRequestPerArrival(events, key);
    NextAccepted(events, key, now);
    NewestFirstSnoc(Arrivals(events, key), Accepted(Requests(events, key)), entry);
  }

  lemma NextAccepted<T>(events: seq<Event<T>>, key: string, now: int)
    requires NoReset(events)
    ensures var requests := Requests(events, key);
            Accepted(requests + [At(now, HISTORY_THROTTLE_MS)])
            == if KeyedGate.Open(Run(events).last, key, now, HISTORY_THROTTLE_MS) then Accepted(requests) + [|requests|] else Accepted(requests)
  {
    TableIsGate(events);
    KeyedGate.RunMirrors(GateEvents(events), key);
    KeyedGate.MirrorsOpen(Run(events).last, key, Requests(events, key), At(now, HISTORY_THROTTLE_MS));
  }

  lemma AppendedOther<T>(events: seq<Event<T>>, e: Event<T>, key: string)
    requires Unshared(events + [e], key) && !(e.Own? && e.key == key)
    ensures Unshared(events, key) && Appended(events + [e], key) == Appended(events, key)
  {
    forall i | 0 <= i < |events| ensures !(events[i].Foreign? && events[i].key == key) {
      assert (events + [e])[i] == events[i];
    }
    assert (events + [e])[|events|] == e;
    ArrivalsSnoc(events, e, key);
  }

  /** The history of a key is, newest first, what the gate let through in the tail and then what was there
      before it, cut to the newest 500. */
  ghost predicate HistoryIs<T>(head: seq<Event<T>>, events: seq<Event<T>>, key: string)
    requires Unshared(head, key) && Unshared(events, key)
  {
    var before, now := |Appended(head, key)|, |Appended(events, key)|;
    before <= now
    && HistoryOf(Run(events).history, key)
       == Take(Appended(events, key)[..now - before] + HistoryOf(Run(head).history, key), 500)
  }

  lemma OwnKeepsHistory<T>(head: seq<Event<T>>, events: seq<Event<T>>, key: string, entry: T, now: int)
    requires Unshared(head, key) && Unshared(events, key) && NoReset(events) && HistoryIs(head, events, key)
    ensures Unshared(events + [Own(key, entry, now)], key) && HistoryIs(head, events + [Own(key, entry, now)], key)
  {
    AppendedOwn(events, key, entry, now);
    OwnAppends(events, key, entry, now);
    FrontGrows(Appended(events, key), HistoryOf(Run(head).history, key), |Appended(events, key)| - |Appended(head, key)|, entry);
    NothingInFront(Appended(events, key));
  }

  lemma NothingInFront<T>(s: seq<T>)
    ensures [] + s == s
  {
  }

  lemma OwnAppends<T>(events: seq<Event<T>>, key: string, entry: T, now: int)
    ensures var before := HistoryOf(Run(events).history, key);
            HistoryOf(Run(events + [Own(key, entry, now)]).history, key)
            == if KeyedGate.Open(Run(events).last, key, now, HISTORY_THROTTLE_MS) then Take([entry] + before, HISTORY_SIZE) else before
  {
    RunSnoc(events, Own(key, entry, now));
    var none: seq<T> := [];
    assert [entry] + none == [entry];
  }

  lemma FrontGrows<T>(appended: seq<T>, base: seq<T>, grown: nat, entry: T)
    requires grown <= |appended|
    ensures Take([entry] + Take(appended[..grown] + base, HISTORY_SIZE), HISTORY_SIZE)
            == Take(([entry] + appended)[..grown + 1] + base, HISTORY_SIZE)
  {
    TakeTwice(entry, appended[..grown] + base);
    assert [entry] + (appended[..grown] + base) == ([entry] + appended)[..grown + 1] + base;
  }

  lemma TakeTwice<T>(entry: T, all: seq<T>)
    ensures Take([entry] + Take(all, HISTORY_SIZE), HISTORY_SIZE) == Take([entry] + all, HISTORY_SIZE)
  {
  }

  lemma OtherKeepsHistory<T>(head: seq<Event<T>>, events: seq<Event<T>>, key: string, e: Event<T>)
    requires Unshared(head, key) && Unshared(events + [e], key) && !(e.Own? && e.key == key)
    requires !e.Reset? && (e.Seed? ==> key !in KeysOf(e.rows))
    ensures Unshared(events, key)
    ensures HistoryIs(head, events, key) ==> HistoryIs(head, events + [e], key)
  {
    AppendedOther(events, e, key);
    OtherLeavesHistory(events, e, key);
  }

  lemma OtherLeavesHistory<T>(events: seq<Event<T>>, e: Event<T>, key: string)
    requires !(e.Own? && e.key == key) && !e.Reset? && (e.Seed? ==> key !in KeysOf(e.rows))
    ensures HistoryOf(Run(events + [e]).history, key) == HistoryOf(Run(events).history, key)
  {
    RunSnoc(events, e);
  }

  /** History buffers: after any run without a reset, however the key was seeded in its head, the buffer is
      the newest 500 of what was there at the end of the head and what the five-second gate accepted since,
      newest first.  Snapshots, other keys and the other panel do not disturb it. */
  lemma {:induction false} HistoryBetweenSeeds<T>(head: seq<Event<T>>, tail: seq<Event<T>>, key: string)
    requires NoReset(head + tail) && Unshared(head + tail, key) && NotSeeded(tail, key)
    ensures Unshared(head, key) && HistoryIs(head, head + tail, key)
  {
    UnsharedPrefix(head, tail, key);
    if tail == [] {
      assert head + tail == head;
      TakeAll(head, key);
    } else {
      var n := |tail| - 1;
      var e := tail[n];
      assert head + tail == head + tail[..n] + [e];
      UnsharedPrefix(head + tail[..n], [e], key);
      HistoryBetweenSeeds(head, tail[..n], key);
      if e.Own? && e.key == key {
        OwnKeepsHistory(head, head + tail[..n], key, e.entry, e.now);
      } else {
        assert (head + tail)[|head| + n] == e;
        OtherKeepsHistory(head, head + tail[..n], key, e);
      }
    }
  }

  lemma UnsharedPrefix<T>(head: seq<Event<T>>, tail: seq<Event<T>>, key: string)
    requires Unshared(head + tail, key) && NoReset(head + tail)
    ensures Unshared(head, key) && NoReset(head)
  {
    forall i | 0 <= i < |head| ensures !(head[i].Foreign? && head[i].key == key) && !head[i].Reset? {
      assert (head + tail)[i] == head[i];
    }
  }

  lemma TakeAll<T>(head: seq<Event<T>>, key: string)
    requires Unshared(head, key)
    ensures HistoryIs(head, head, key)
  {
    HistoryIsCapped(head);
    var base := HistoryOf(Run(head).history, key);
    assert Appended(head, key)[..0] + base == base;
  }

  /** From the start or a reset on, with no seeding: the newest 500 accepted entries. */
  lemma HistoryFromStart<T>(events: seq<Event<T>>, key: string)
    requires NoReset(events) && Unshared(events, key) && NotSeeded(events, key)
    ensures HistoryOf(Run(events).history, key) == Take(Appended(events, key), 500)
  {
    var none: seq<Event<T>> := [];
    assert none + events == events;
    HistoryBetweenSeeds(none, events, key);
    var all := Appended(events, key);
    assert Appended(none, key) == [];
    assert all[..|all|] + [] == all;
  }

  lemma TakeInner<T>(front: seq<T>, rest: seq<T>)
    ensures Take(front + Take(rest, HISTORY_SIZE), HISTORY_SIZE) == Take(front + rest, HISTORY_SIZE)
  {
    if |rest| > HISTORY_SIZE {
      assert (front + rest[..HISTORY_SIZE])[..HISTORY_SIZE] == (front + rest)[..HISTORY_SIZE];
    }
  }

  /** After a seeding: in any run without a reset, a key that the last seeding had rows for holds, newest
      first, what the gate accepted since that seeding and then the seeded rows, cut to 500.  What was in
      its buffer before is gone, but the gate still counts from the updates before the seeding. */
  lemma SeedThenUpdates<T>(head: seq<Event<T>>, rows: seq<(string, T)>, tail: seq<Event<T>>, key: string)
    requires var events := head + [Seed(rows)] + tail; NoReset(events) && Unshared(events, key)
    requires key in KeysOf(rows) && NotSeeded(tail, key)
    ensures var events := head + [Seed(rows)] + tail;
            && Unshared(head, key) && |Appended(head, key)| <= |Appended(events, key)|
            && HistoryOf(Run(events).history, key)
               == Take(Appended(events, key)[..|Appended(events, key)| - |Appended(head, key)|] + RowsOf(rows, key), 500)
  {
    var seeded := head + [Seed(rows)];
    HistoryBetweenSeeds(seeded, tail, key);
    UnsharedPrefix(seeded, tail, key);
    AppendedOther(head, Seed(rows), key);
    RunSnoc(head, Seed(rows));
    var events := seeded + tail;
    TakeInner(Appended(events, key)[..|Appended(events, key)| - |Appended(head, key)|], RowsOf(rows, key));
  }

  lemma {:induction false} RequestsAskFiveSeconds<T>(events: seq<Event<T>>, key: string)
    ensures forall i :: 0 <= i < |Requests(events, key)| ==> Requests(events, key)[i].gap == 5000 && Requests(events, key)[i].check == Requests(events, key)[i].record
  {
    if events != [] {
      var before, e := events[..|events| - 1], events[|events| - 1];
      RequestsAskFiveSeconds(before, key);
      assert events == before + [e];
      ArrivalsSnoc(before, e, key);
    }
  }

  /** No choice of a key's updates that are five seconds apart is larger than what the gate lets through. */
  lemma AppendedIsLargest<T>(events: seq<Event<T>>, key: string)
    requires Unshared(events, key) && Sorted(Requests(events, key))
    ensures forall i :: 0 <= i < |Requests(events, key)| ==> Requests(events, key)[i].gap == 5000 && Requests(events, key)[i].check == Requests(events, key)[i].record
    ensures forall picked :: Indices(picked, |Requests(events, key)|) && Spaced(picked, Requests(events, key)) ==> |picked| <= |Appended(events, key)|
  {
    OneRequestPerArrival(events, key);
    RequestsAskFiveSeconds(events, key);
    GreedyIsOptimal(Requests(events, key));
  }

  /** The latest value of a key is the last one set since the last snapshot or reset, whatever the throttle
      does. */
  lemma {:induction false} LatestIsLastSet<T>(head: seq<Event<T>>, key: string, entry: T, now: int, tail: seq<Event<T>>)
    requires forall i :: 0 <= i < |tail| ==> !tail[i].Reset? && !tail[i].Snap? && !(tail[i].Own? && tail[i].key == key)
    ensures var latest := Run(head + [Own(key, entry, now)] + tail).latest; key in latest && latest[key] == entry
  {
    var first := head + [Own(key, entry, now)];
    if tail == [] {
      RunSnoc(head, Own(key, entry, now));
      assert first + tail == first;
    } else {
      var n := |tail| - 1;
      LatestIsLastSet(head, key, entry, now, tail[..n]);
      assert first + tail == first + tail[..n] + [tail[n]];
      RunSnoc(first + tail[..n], tail[n]);
    }
  }

  /** A snapshot replaces all latest values; among several entries of a key the last wins. */
  lemma SnapshotReplaces<T>(p: Panel<T>, entries: seq<(string, T)>, key: string)
    ensures var q := Step(p, Snap(entries));
            && (key in q.latest <==> exists i :: 0 <= i < |entries| && entries[i].0 == key)
            && (forall i :: 0 <= i < |entries| && entries[i].0 == key && (forall j :: i < j < |entries| ==> entries[j].0 != key)
                  ==> q.latest[key] == entries[i].1)
            && q.history == p.history && q.last == p.last
  {
    forall i | 0 <= i < |entries| && entries[i].0 == key && (forall j :: i < j < |entries| ==> entries[j].0 != key)
      ensures key in KeysOf(entries) && LastOf(entries, key) == entries[i].1
    {
      assert key in KeysOf(entries);
      LastIsAt(entries, key, i);
    }
  }

  lemma {:induction false} LastIsAt<T>(entries: seq<(string, T)>, key: string, i: nat)
    requires i < |entries| && entries[i].0 == key && forall j :: i < j < |entries| ==> entries[j].0 != key
    ensures key in KeysOf(entries) && LastOf(entries, key) == entries[i].1
  {
    assert key in KeysOf(entries);
    if i < |entries| - 1 {
      LastIsAt(entries[..|entries| - 1], key, i);
    }
  }
}
