/** XREAD: reading a stream from the last ID seen, and blocking until there is something to read. */
module StreamReads {
  import opened Text
  import opened Store
  import opened Commands
  import opened StreamIds
  import opened StreamOrder
  import opened StreamRanges

  // ---- after an ID --------------------------------------------------------------------------------------------

  /** The number of entries up to and including this point. */
  ghost predicate Splits(entries: seq<Entry>, id: string, n: nat) {
    n <= |entries| && forall i :: 0 <= i < |entries| ==> (Beyond(PointOf(entries[i].id), PointOf(id)) <==> n <= i)
  }

  /** "After id" is exactly the suffix of the entries beyond that ID. */
  lemma AfterIsSuffix(entries: seq<Entry>, id: string, n: nat)
    requires Splits(entries, id, n)
    ensures After(entries, id) == entries[n..]
  {
    hide PointOf, Beyond;
    assert forall i :: 0 <= i < |entries| ==> (InRange(entries[i].id, id, None) <==> Beyond(PointOf(entries[i].id), PointOf(id)));
    RangeOfSlice(entries, id, None, n, |entries|);
    assert entries[n..|entries|] == entries[n..];
  }

  lemma {:induction false} SplitExists(entries: seq<Entry>, id: string)
    requires Increasing(entries)
    ensures exists n: nat :: Splits(entries, id, n)
    decreases |entries|
  {
    hide PointOf, Beyond, Increasing;
    if entries == [] {
      assert Splits(entries, id, 0);
    } else {
      var last := |entries| - 1;
      PrefixIncreasing(entries, last);
      SplitExists(entries[..last], id);
      var n: nat :| Splits(entries[..last], id, n);
      assert forall i :: 0 <= i < last ==> entries[..last][i] == entries[i];
      if Beyond(PointOf(entries[last].id), PointOf(id)) {
        assert Splits(entries, id, n);
      } else {
        forall i | 0 <= i < last ensures !Beyond(PointOf(entries[i].id), PointOf(id)) { BoundsAreMonotone(entries, i, last, PointOf(id)); }
        assert Splits(entries, id, |entries|);
      }
    }
  }

  /** Seen from one of its own IDs, the rest of the stream begins right behind that entry. */
  lemma SplitAtOwnId(entries: seq<Entry>, k: nat)
    requires Increasing(entries) && k < |entries|
    ensures Splits(entries, entries[k].id, k + 1)
  {
    hide PointOf, NumberOf, Ms, Seq, IsId;
    PointOfId(entries[k].id);
    forall i | 0 <= i < |entries| ensures Beyond(PointOf(entries[i].id), PointOf(entries[k].id)) <==> k + 1 <= i {
      PointOfId(entries[i].id);
      assert i < k ==> Above(entries[k].id, entries[i].id);
      assert i > k ==> Above(entries[i].id, entries[k].id);
    }
  }

  // ---- a client that polls -------------------------------------------------------------------------------------

  lemma XAddElsewhere(now: nat, s: Store, key: string, request: string, fields: seq<string>)
    ensures var o := XAdd(now, s, [key, request] + fields);
            (forall k :: k != key ==> o.store.Get(k) == s.Get(k)) && (IsError(o.reply) ==> o.store == s)
  {
    hide GenerateEntryId, IsStreamId, Error;
  }

  lemma SameEntries(s: Store, t: Store, key: string)
    requires t.Get(key) == s.Get(key)
    ensures EntriesAt(t, key) == EntriesAt(s, key)
  {
  }

  lemma {:induction false} AfterAppend(entries: seq<Entry>, e: Entry, id: string)
    ensures After(entries + [e], id) == After(entries, id) + if InRange(e.id, id, None) then [e] else []
    decreases entries
  {
    hide InRange;
    if entries == [] {
      assert [] + [e] == [e] && [e][1..] == [];
    } else {
      assert (entries + [e])[1..] == entries[1..] + [e];
      AfterAppend(entries[1..], e, id);
    }
  }

  /** XADDs to this stream and to others, and reads by a client that asks for what follows the last ID it has seen. */
  datatype Event = Added(on: string, add: Add) | Polled

  datatype Follower = Follower(store: Store, last: string, received: seq<Entry>)

  function Follow(f: Follower, key: string, e: Event): Follower {
    match e
    case Added(on, a) => f.(store := XAdd(a.now, f.store, [on, a.request] + a.fields).store)
    case Polled =>
      var news := After(EntriesAt(f.store, key), f.last);
      if news == [] then f else f.(last := news[|news| - 1].id, received := f.received + news)
  }

  function Followed(start: Follower, key: string, events: seq<Event>): Follower {
    if events == [] then start
    else Follow(Followed(start, key, events[..|events| - 1]), key, events[|events| - 1])
  }

  /** The client has received, in order, the first of the entries beyond its first ID, and will ask for the rest. */
  ghost predicate Receives(f: Follower, key: string, first: string) {
    && Increasing(EntriesAt(f.store, key))
    && f.received <= After(EntriesAt(f.store, key), first)
    && f.last == if f.received == [] then first else f.received[|f.received| - 1].id
  }

  lemma AddKeepsReceived(f: Follower, key: string, first: string, on: string, a: Add)
    requires Receives(f, key, first) && (on == key ==> Harmless(a, f.store, key))
    ensures Receives(Follow(f, key, Added(on, a)), key, first)
  {
    hide Increasing, XAdd, EntriesAt, GetEntryRange, Harmless, GenerateEntryId, InRange;
    var t := Follow(f, key, Added(on, a)).store;
    XAddElsewhere(a.now, f.store, on, a.request, a.fields);
    if on != key {
      SameEntries(f.store, t, key);
    } else {
      AddKeepsIncreasingExactly(f.store, key, a);
      XAddAppends(f.store, key, a);
      if Accepted(a, f.store, key) {
        var id := GenerateEntryId(a.request, TopId(EntriesAt(f.store, key)), a.now).value;
        AfterAppend(EntriesAt(f.store, key), Entry(id, a.fields), first);
      }
    }
  }

  /** A read makes the client complete. */
  lemma PollCompletes(f: Follower, key: string, first: string)
    requires Receives(f, key, first)
    ensures var g := Follow(f, key, Polled);
            Receives(g, key, first) && g.received == After(EntriesAt(f.store, key), first) && g.store == f.store
  {
    hide Increasing, EntriesAt, GetEntryRange, Splits;
    var entries := EntriesAt(f.store, key);
    var all := After(entries, first);
    if f.received == [] {
      assert f.received + all == all;
    } else {
      SplitExists(entries, first);
      var from: nat :| Splits(entries, first, from);
      SplitFits(entries, first, from);
      AfterIsSuffix(entries, first, from);
      var k := from + |f.received| - 1;
      assert f.received[|f.received| - 1] == all[|f.received| - 1] == entries[k];
      SplitAtOwnId(entries, k);
      AfterIsSuffix(entries, f.last, k + 1);
      assert all == f.received + entries[k + 1..];
      assert f.received + [] == f.received;
    }
  }

  lemma SplitFits(entries: seq<Entry>, id: string, n: nat)
    requires Splits(entries, id, n)
    ensures n <= |entries|
  {
  }

  /** Every request to this stream is harmless to it at that moment. */
  ghost predicate HarmlessRun(start: Follower, key: string, events: seq<Event>) {
    forall i :: 0 <= i < |events| && events[i].Added? && events[i].on == key ==>
      Harmless(events[i].add, Followed(start, key, events[..i]).store, key)
  }

  lemma {:induction false} FollowerReceives(start: Follower, key: string, events: seq<Event>)
    requires Increasing(EntriesAt(start.store, key)) && start.received == [] && HarmlessRun(start, key, events)
    ensures Receives(Followed(start, key, events), key, start.last)
    decreases events
  {
    hide Follow, Increasing, Harmless, EntriesAt, GetEntryRange, Receives;
    if events == [] {
      NothingReceived(start, key);
    } else {
      var before, e := events[..|events| - 1], events[|events| - 1];
      assert HarmlessRun(start, key, before) by {
        assert forall i :: 0 <= i < |before| ==> before[i] == events[i] && before[..i] == events[..i];
      }
      FollowerReceives(start, key, before);
      assert events[..|before|] == before;
      match e
      case Added(on, a) => AddKeepsReceived(Followed(start, key, before), key, start.last, on, a);
      case Polled => PollCompletes(Followed(start, key, before), key, start.last);
    }
  }

  lemma NothingReceived(start: Follower, key: string)
    requires Increasing(EntriesAt(start.store, key)) && start.received == []
    ensures Receives(start, key, start.last)
  {
  }

  /** Exactly once: after any interleaving of XADDs and reads that ends with a read, wherever the client's first ID
      lies, it has received exactly the entries of the stream beyond that ID, each once and in order; and at
      every moment before, a prefix of them. */
  lemma FollowerReceivesExactlyOnce(start: Follower, key: string, events: seq<Event>)
    requires Increasing(EntriesAt(start.store, key)) && start.received == [] && HarmlessRun(start, key, events)
    ensures var f := Followed(start, key, events); f.received <= After(EntriesAt(f.store, key), start.last)
    ensures var f := Followed(start, key, events + [Polled]); f.received == After(EntriesAt(f.store, key), start.last)
  {
    hide Follow, Increasing, HarmlessRun, EntriesAt, GetEntryRange;
    FollowerReceives(start, key, events);
    assert (events + [Polled])[..|events|] == events;
    PollCompletes(Followed(start, key, events), key, start.last);
  }

  // ---- blocking reads -------------------------------------------------------------------------------------------

  /** A registered listener: its streams and the IDs resolved when it was registered. */
  datatype Listener = Listener(keys: seq<string>, ids: seq<string>)

  /** processXRead: for each stream with entries after its ID, the key and those entries. */
  function ReadAll(s: Store, keys: seq<string>, ids: seq<string>): seq<(string, seq<Entry>)>
    requires |keys| == |ids|
    decreases keys
  {
    if keys == [] then []
    else
      var news := After(EntriesAt(s, keys[0]), ids[0]);
      (if news == [] then [] else [(keys[0], news)]) + ReadAll(s, keys[1..], ids[1..])
  }

  /** `$` is the stream's last ID at registration. */
  function ResolveId(s: Store, key: string, id: string): string {
    if id != "$" then id
    else
      var top := TopId(EntriesAt(s, key));
      if top.Some? then top.value else "0-0"
  }

  function ResolveIds(s: Store, keys: seq<string>, ids: seq<string>): (r: seq<string>)
    requires |keys| == |ids|
    ensures |r| == |ids|
  {
    seq(|ids|, i requires 0 <= i < |ids| => ResolveId(s, keys[i], ids[i]))
  }

  datatype Readers = Readers(store: Store, listeners: seq<Listener>, answers: seq<(Listener, seq<(string, seq<Entry>)>)>)

  type Reply = seq<(string, seq<Entry>)>

  /** The listener answers if the event concerns one of its streams and there is something to read. */
  predicate Answers(s: Store, l: Listener, key: string) {
    |l.keys| == |l.ids| && key in l.keys && ReadAll(s, l.keys, l.ids) != []
  }

  function StillListening(s: Store, ls: seq<Listener>, key: string): seq<Listener> {
    if ls == [] then []
    else (if Answers(s, ls[0], key) then [] else [ls[0]]) + StillListening(s, ls[1..], key)
  }

  function Answered(s: Store, ls: seq<Listener>, key: string): seq<(Listener, Reply)> {
    if ls == [] then []
    else
      (if Answers(s, ls[0], key) then [(ls[0], ReadAll(s, ls[0].keys, ls[0].ids))] else []) + Answered(s, ls[1..], key)
  }

  /** Each listener either stays or answers. */
  lemma {:induction false} StaysOrAnswers(s: Store, ls: seq<Listener>, key: string, l: Listener)
    ensures l in StillListening(s, ls, key) <==> l in ls && !Answers(s, l, key)
    ensures l in ls && Answers(s, l, key) ==> (l, ReadAll(s, l.keys, l.ids)) in Answered(s, ls, key)
    decreases ls
  {
    hide ReadAll;
    if ls != [] {
      StaysOrAnswers(s, ls[1..], key, l);
      assert l in ls <==> l == ls[0] || l in ls[1..] by { assert ls == [ls[0]] + ls[1..]; }
      if l == ls[0] && Answers(s, l, key) { assert Answered(s, ls, key)[0] == (l, ReadAll(s, l.keys, l.ids)); }
    }
  }

  datatype Step =
    | Add(key: string, request: string, fields: seq<string>, now: nat)
    | Remove(key: string)                        // DEL
    | Block(keys: seq<string>, ids: seq<string>) // XREAD BLOCK
    | Timeout(k: nat)

  /** XADD notifies only when it has added an entry. */
  function AddStep(r: Readers, key: string, request: string, fields: seq<string>, now: nat): Readers {
    var o := XAdd(now, r.store, [key, request] + fields);
    if IsError(o.reply) then r.(store := o.store)
    else r.(store := o.store, listeners := StillListening(o.store, r.listeners, key),
            answers := r.answers + Answered(o.store, r.listeners, key))
  }

  function BlockStep(r: Readers, keys: seq<string>, ids: seq<string>): Readers {
    if |keys| != |ids| then r
    else
      var l := Listener(keys, ResolveIds(r.store, keys, ids));
      var news := ReadAll(r.store, l.keys, l.ids);
      if news == [] then r.(listeners := r.listeners + [l]) else r.(answers := r.answers + [(l, news)])
  }

  function Next(r: Readers, step: Step): Readers {
    match step
    case Add(key, request, fields, now) => AddStep(r, key, request, fields, now)
    case Remove(key) => r.(store := r.store.Delete(key))
    case Block(keys, ids) => BlockStep(r, keys, ids)
    case Timeout(k) =>
      if k < |r.listeners| then r.(listeners := r.listeners[..k] + r.listeners[k + 1..]) else r
  }

  function Reach(steps: seq<Step>): Readers {
    if steps == [] then Readers(EMPTY, [], []) else Next(Reach(steps[..|steps| - 1]), steps[|steps| - 1])
  }

  /** A registered listener has nothing to read in any of its streams. */
  ghost predicate NothingMissed(r: Readers) {
    forall i :: 0 <= i < |r.listeners| ==>
      |r.listeners[i].keys| == |r.listeners[i].ids| && ReadAll(r.store, r.listeners[i].keys, r.listeners[i].ids) == []
  }

  lemma {:induction false} ReadAllEmptyExactly(s: Store, keys: seq<string>, ids: seq<string>)
    requires |keys| == |ids|
    ensures ReadAll(s, keys, ids) == [] <==> forall i :: 0 <= i < |keys| ==> After(EntriesAt(s, keys[i]), ids[i]) == []
    decreases keys
  {
    hide GetEntryRange, EntriesAt;
    if keys != [] {
      ReadAllEmptyExactly(s, keys[1..], ids[1..]);
      assert forall i :: 0 <= i < |keys[1..]| ==> keys[1..][i] == keys[i + 1] && ids[1..][i] == ids[i + 1];
      assert forall i :: 0 < i < |keys| ==> keys[i] == keys[1..][i - 1] && ids[i] == ids[1..][i - 1];
    }
  }

  /** Streams that a step does not touch give a listener nothing new. */
  lemma UntouchedStaysEmpty(s: Store, t: Store, l: Listener, key: string)
    requires |l.keys| == |l.ids| && ReadAll(s, l.keys, l.ids) == []
    requires forall k :: k != key ==> t.Get(k) == s.Get(k)
    requires key !in l.keys || EntriesAt(t, key) == []
    ensures ReadAll(t, l.keys, l.ids) == []
  {
    hide GetEntryRange;
    ReadAllEmptyExactly(s, l.keys, l.ids);
    forall i | 0 <= i < |l.keys| ensures After(EntriesAt(t, l.keys[i]), l.ids[i]) == [] {
      if l.keys[i] == key { NothingAfterNothing(l.ids[i]); } else { SameEntries(s, t, l.keys[i]); }
    }
    ReadAllEmptyExactly(t, l.keys, l.ids);
  }

  lemma NothingAfterNothing(id: string)
    ensures After([], id) == []
  {
  }

  lemma AddKeepsNothingMissed(r: Readers, key: string, request: string, fields: seq<string>, now: nat)
    requires NothingMissed(r)
    ensures NothingMissed(AddStep(r, key, request, fields, now))
  {
    hide XAdd, ReadAll, IsError, EntriesAt;
    XAddElsewhere(now, r.store, key, request, fields);
    var n := AddStep(r, key, request, fields, now);
    forall i | 0 <= i < |n.listeners|
      ensures |n.listeners[i].keys| == |n.listeners[i].ids| && ReadAll(n.store, n.listeners[i].keys, n.listeners[i].ids) == []
    {
      var l := n.listeners[i];
      assert l in n.listeners;
      StaysOrAnswers(n.store, r.listeners, key, l);
      if key !in l.keys { UntouchedStaysEmpty(r.store, n.store, l, key); }
    }
  }

  lemma NextKeepsNothingMissed(r: Readers, step: Step)
    requires NothingMissed(r)
    ensures NothingMissed(Next(r, step))
  {
    hide ReadAll, AddStep, ResolveIds;
    match step
    case Add(key, request, fields, now) => AddKeepsNothingMissed(r, key, request, fields, now);
    case Remove(key) =>
      var t := r.store.Delete(key);
      forall i | 0 <= i < |r.listeners| ensures ReadAll(t, r.listeners[i].keys, r.listeners[i].ids) == [] {
        assert t.Get(key) == None;
        UntouchedStaysEmpty(r.store, t, r.listeners[i], key);
      }
    case _ =>
  }

  /** Blocked XREAD: in every reachable state a listener that is still registered has no entry after any of its
      resolved IDs in any of its streams. */
  lemma {:induction false} BlockedReadersMissNothing(steps: seq<Step>)
    ensures NothingMissed(Reach(steps))
  {
    hide Next;
    if steps != [] {
      BlockedReadersMissNothing(steps[..|steps| - 1]);
      NextKeepsNothingMissed(Reach(steps[..|steps| - 1]), steps[|steps| - 1]);
    }
  }

  /** The reply for one added entry: a pair for each time the stream is listed with an ID before it. */
  function NewsOf(keys: seq<string>, ids: seq<string>, key: string, e: Entry): Reply
    requires |keys| == |ids|
    decreases keys
  {
    if keys == [] then []
    else (if keys[0] == key && InRange(e.id, ids[0], None) then [(key, [e])] else []) + NewsOf(keys[1..], ids[1..], key, e)
  }

  ghost predicate Concerns(l: Listener, key: string, e: Entry)
    requires |l.keys| == |l.ids|
  {
    exists j :: 0 <= j < |l.keys| && l.keys[j] == key && InRange(e.id, l.ids[j], None)
  }

  lemma {:induction false} NewsExactly(l: Listener, key: string, e: Entry)
    requires |l.keys| == |l.ids|
    ensures NewsOf(l.keys, l.ids, key, e) != [] <==> Concerns(l, key, e)
    decreases l.keys
  {
    hide InRange;
    if l.keys != [] {
      var rest := Listener(l.keys[1..], l.ids[1..]);
      NewsExactly(rest, key, e);
      if Concerns(rest, key, e) {
        var j :| 0 <= j < |rest.keys| && rest.keys[j] == key && InRange(e.id, rest.ids[j], None);
        assert l.keys[j + 1] == key && l.ids[j + 1] == rest.ids[j];
      }
      if Concerns(l, key, e) {
        var j :| 0 <= j < |l.keys| && l.keys[j] == key && InRange(e.id, l.ids[j], None);
        if j > 0 { assert rest.keys[j - 1] == key && rest.ids[j - 1] == l.ids[j]; }
      }
    }
  }

  /** One more entry in one stream, for a listener that had nothing to read. */
  lemma {:induction false} OneEntryIsNews(s: Store, t: Store, l: Listener, key: string, e: Entry)
    requires |l.keys| == |l.ids| && ReadAll(s, l.keys, l.ids) == []
    requires (forall k :: k != key ==> t.Get(k) == s.Get(k)) && EntriesAt(t, key) == EntriesAt(s, key) + [e]
    ensures ReadAll(t, l.keys, l.ids) == NewsOf(l.keys, l.ids, key, e)
    decreases l.keys
  {
    hide GetEntryRange, EntriesAt, InRange;
    if l.keys != [] {
      var rest := Listener(l.keys[1..], l.ids[1..]);
      assert ReadAll(s, rest.keys, rest.ids) == [] && After(EntriesAt(s, l.keys[0]), l.ids[0]) == [];
      OneEntryIsNews(s, t, rest, key, e);
      if l.keys[0] == key {
        AfterAppend(EntriesAt(s, key), e, l.ids[0]);
        assert [] + [e] == [e];
      } else {
        SameEntries(s, t, l.keys[0]);
      }
    }
  }

  /** So an XADD that adds an entry resolves exactly the listeners that it concerns, each with exactly that entry, once
      for each listing of the stream that the entry follows. */
  lemma FirstNewEntryResolves(r: Readers, l: Listener, key: string, request: string, fields: seq<string>, now: nat, e: Entry)
    requires NothingMissed(r) && l in r.listeners
    requires var o := XAdd(now, r.store, [key, request] + fields);
             !IsError(o.reply) && EntriesAt(o.store, key) == EntriesAt(r.store, key) + [e]
    ensures |l.keys| == |l.ids|
    ensures var n := Next(r, Step.Add(key, request, fields, now));
            if Concerns(l, key, e) then l !in n.listeners && (l, NewsOf(l.keys, l.ids, key, e)) in n.answers
            else l in n.listeners
  {
    hide XAdd, EntriesAt, IsError, InRange, GetEntryRange, ReadAll, NewsOf;
    var o := XAdd(now, r.store, [key, request] + fields);
    XAddElsewhere(now, r.store, key, request, fields);
    var i :| 0 <= i < |r.listeners| && r.listeners[i] == l;
    OneEntryIsNews(r.store, o.store, l, key, e);
    NewsExactly(l, key, e);
    if Concerns(l, key, e) { assert key in l.keys; }
    StaysOrAnswers(o.store, r.listeners, key, l);
  }

  // ---- XREAD BLOCK with `$` ------------------------------------------------------------------------------------------

  lemma NothingAfterTop(entries: seq<Entry>)
    requires Increasing(entries) && entries != []
    ensures After(entries, entries[|entries| - 1].id) == []
  {
    hide Increasing, Splits;
    SplitAtOwnId(entries, |entries| - 1);
    AfterIsSuffix(entries, entries[|entries| - 1].id, |entries|);
  }

  /** The last ID of a stream, or 0-0 if there is no stream. */
  function LastId(s: Store, key: string): string {
    var entries := EntriesAt(s, key);
    if entries == [] then "0-0" else entries[|entries| - 1].id
  }

  /** What a blocked client waits for in one stream: what comes after the ID it gave, or, for `$`, after the last ID
      of now. */
  ghost predicate WaitsFrom(s: Store, key: string, asked: string, id: string) {
    id == if asked == "$" then LastId(s, key) else asked
  }

  /** The entry lies above the last ID of this stream. */
  ghost predicate Beats(e: Entry, s: Store, key: string) {
    IsId(e.id) && IsId(LastId(s, key)) && Above(e.id, LastId(s, key))
  }

  /** XREAD BLOCK with `$` for every stream never answers from what is stored: on increasing streams the client is
      registered, behind all others, waiting from the last IDs of now; and IDs that are given are kept as they are. */
  lemma DollarWaits(r: Readers, keys: seq<string>, ids: seq<string>)
    requires |keys| == |ids| && forall i :: 0 <= i < |keys| ==> ids[i] == "$" && Increasing(EntriesAt(r.store, keys[i]))
    ensures var n := Next(r, Step.Block(keys, ids));
            && n.answers == r.answers && n.store == r.store && |n.listeners| == |r.listeners| + 1
            && n.listeners[..|r.listeners|] == r.listeners
            && var l := n.listeners[|r.listeners|];
               l.keys == keys && |l.ids| == |keys| && forall i :: 0 <= i < |keys| ==> WaitsFrom(r.store, keys[i], "$", l.ids[i])
  {
    hide GetEntryRange, EntriesAt, Increasing, ReadAll;
    var l := BlockListens(r, keys, ids);
    forall i | 0 <= i < |keys| ensures After(EntriesAt(r.store, keys[i]), l.ids[i]) == [] {
      var entries := EntriesAt(r.store, keys[i]);
      if entries == [] { NothingAfterNothing(l.ids[i]); } else { NothingAfterTop(entries); }
    }
  }

  /** Whether it answers at once or waits, the IDs are those asked for, or the last ones of now. */
  lemma BlockListens(r: Readers, keys: seq<string>, ids: seq<string>) returns (l: Listener)
    requires |keys| == |ids|
    ensures l.keys == keys && |l.ids| == |keys| && forall i :: 0 <= i < |keys| ==> WaitsFrom(r.store, keys[i], ids[i], l.ids[i])
    ensures var n := Next(r, Step.Block(keys, ids));
            if forall i :: 0 <= i < |keys| ==> After(EntriesAt(r.store, keys[i]), l.ids[i]) == []
            then n == r.(listeners := r.listeners + [l])
            else n == r.(answers := r.answers + [(l, ReadAll(r.store, l.keys, l.ids))])
  {
    hide GetEntryRange, EntriesAt, ReadAll;
    l := Listener(keys, ResolveIds(r.store, keys, ids));
    ReadAllEmptyExactly(r.store, l.keys, l.ids);
    assert forall i :: 0 <= i < |keys| ==> WaitsFrom(r.store, keys[i], ids[i], l.ids[i]);
  }

  lemma ReadsOne(s: Store, key: string, id: string)
    ensures var news := After(EntriesAt(s, key), id); ReadAll(s, [key], [id]) == if news == [] then [] else [(key, news)]
  {
    hide GetEntryRange, EntriesAt;
    assert [key][1..] == [] && [id][1..] == [];
  }

  /** What a read gives: stream by stream in the order asked for, leaving out those without news. */
  lemma {:induction false} ReadsInOrder(s: Store, keys: seq<string>, ids: seq<string>, key: string, id: string)
    requires |keys| == |ids|
    ensures var news := After(EntriesAt(s, key), id);
            ReadAll(s, keys + [key], ids + [id]) == ReadAll(s, keys, ids) + if news == [] then [] else [(key, news)]
    decreases keys
  {
    hide GetEntryRange, EntriesAt;
    if keys == [] {
      assert keys + [key] == [key] && ids + [id] == [id];
      ReadsOne(s, key, id);
    } else {
      ReadsInOrder(s, keys[1..], ids[1..], key, id);
      assert (keys + [key])[1..] == keys[1..] + [key] && (ids + [id])[1..] == ids[1..] + [id];
    }
  }

  function Listings(keys: seq<string>, key: string): nat {
    if keys == [] then 0 else (if keys[0] == key then 1 else 0) + Listings(keys[1..], key)
  }

  lemma {:induction false} EveryListingIsNews(keys: seq<string>, ids: seq<string>, key: string, e: Entry)
    requires |keys| == |ids| && forall i :: 0 <= i < |keys| && keys[i] == key ==> InRange(e.id, ids[i], None)
    ensures var news := NewsOf(keys, ids, key, e);
            |news| == Listings(keys, key) && forall i :: 0 <= i < |news| ==> news[i] == (key, [e])
    decreases keys
  {
    hide InRange;
    if keys != [] {
      assert forall i :: 0 <= i < |keys[1..]| ==> keys[1..][i] == keys[i + 1] && ids[1..][i] == ids[i + 1];
      EveryListingIsNews(keys[1..], ids[1..], key, e);
    }
  }

  /** And the first entry that an XADD then puts above the last ID of a stream the client listed answers it with
      exactly that entry, once for each listing; the client does not wait any longer. */
  lemma DollarGetsTheNextEntry(r: Readers, keys: seq<string>, ids: seq<string>, key: string, a: Add, e: Entry)
      returns (l: Listener, news: Reply)
    requires NothingMissed(r) && |keys| == |ids| && key in keys
    requires forall i :: 0 <= i < |keys| ==> ids[i] == "$" && Increasing(EntriesAt(r.store, keys[i]))
    requires EntriesAt(XAdd(a.now, r.store, [key, a.request] + a.fields).store, key) == EntriesAt(r.store, key) + [e]
    requires Beats(e, r.store, key)
    ensures var n := Next(r, Step.Block(keys, ids));
            var m := Next(n, Step.Add(key, a.request, a.fields, a.now));
            && n.answers == r.answers && n.listeners == r.listeners + [l] && l.keys == keys
            && l !in m.listeners && (l, news) in m.answers
    ensures |news| == Listings(keys, key) && forall i :: 0 <= i < |news| ==> news[i] == (key, [e])
  {
    hide XAdd, EntriesAt, Increasing, Above, IsId, LastId, GetEntryRange, ReadAll, InRange, NothingMissed, AddStep, NewsOf;
    DollarWaits(r, keys, ids);
    NextKeepsNothingMissed(r, Step.Block(keys, ids));
    var n := Next(r, Step.Block(keys, ids));
    l := n.listeners[|n.listeners| - 1];
    assert n.listeners == r.listeners + [l];
    forall i | 0 <= i < |keys| && keys[i] == key ensures InRange(e.id, l.ids[i], None) {
      InRangeIsNumeric(e.id, l.ids[i], l.ids[i]);
    }
    news := NewsOf(l.keys, l.ids, key, e);
    EveryListingIsNews(l.keys, l.ids, key, e);
    AddedIsNoError(r.store, key, a, e);
    FirstNewEntryResolves(n, l, key, a.request, a.fields, a.now, e);
    var j :| 0 <= j < |keys| && keys[j] == key;
    assert Concerns(l, key, e);
  }

  lemma AddedIsNoError(s: Store, key: string, a: Add, e: Entry)
    requires EntriesAt(XAdd(a.now, s, [key, a.request] + a.fields).store, key) == EntriesAt(s, key) + [e]
    ensures !IsError(XAdd(a.now, s, [key, a.request] + a.fields).reply)
  {
    hide XAdd, EntriesAt, IsError;
    XAddElsewhere(a.now, s, key, a.request, a.fields);
    if IsError(XAdd(a.now, s, [key, a.request] + a.fields).reply) { Longer(EntriesAt(s, key), e); }
  }

  lemma Longer(entries: seq<Entry>, e: Entry)
    ensures entries != entries + [e]
  {
    assert |entries + [e]| == |entries| + 1;
  }

  // ---- timeouts ---------------------------------------------------------------------------------------------------

  lemma {:induction false} AnswersComeFromListeners(s: Store, ls: seq<Listener>, key: string)
    ensures forall j :: 0 <= j < |Answered(s, ls, key)| ==> Answered(s, ls, key)[j].0 in ls
    decreases ls
  {
    hide Answers, ReadAll;
    if ls != [] {
      AnswersComeFromListeners(s, ls[1..], key);
      assert forall l :: l in ls[1..] ==> l in ls;
    }
  }

  /** A listener that has timed out is gone for good: no later XADD answers it, whereas all others wait on as before. */
  lemma TimedOutIsGone(r: Readers, k: nat, key: string, request: string, fields: seq<string>, now: nat)
    requires k < |r.listeners| && forall j :: 0 <= j < |r.listeners| && j != k ==> r.listeners[j] != r.listeners[k]
    ensures var n := Next(r, Step.Timeout(k));
            && n.store == r.store && n.answers == r.answers
            && forall l :: l in n.listeners <==> l in r.listeners && l != r.listeners[k]
    ensures var m := Next(Next(r, Step.Timeout(k)), Step.Add(key, request, fields, now));
            && r.answers <= m.answers && r.listeners[k] !in m.listeners
            && forall j :: |r.answers| <= j < |m.answers| ==> m.answers[j].0 != r.listeners[k]
  {
    hide XAdd, Answers, ReadAll, Answered, StillListening, IsError;
    var n, l := Next(r, Step.Timeout(k)), r.listeners[k];
    assert n.listeners == r.listeners[..k] + r.listeners[k + 1..];
    forall x ensures x in n.listeners <==> x in r.listeners && x != l {
      if x in r.listeners && x != l {
        var j :| 0 <= j < |r.listeners| && r.listeners[j] == x;
        assert x == if j < k then n.listeners[j] else n.listeners[j - 1];
      }
    }
    var t := XAdd(now, n.store, [key, request] + fields).store;
    AnswersComeFromListeners(t, n.listeners, key);
    StaysOrAnswers(t, n.listeners, key, l);
  }
}
