/** Blocking reads as they run: listeners registered on an event emitter, and the XADD that notifies them. */
module XreadCommands {
  import opened Store
  import opened Commands
  import opened StreamRanges
  import opened StreamReads
  import CommandMethods

  class StreamReaders {
    const redisStore: RedisStore
    var listeners: seq<Listener>
    var answers: seq<(Listener, Reply)>  // what has been sent to clients that were blocked or served at once

    constructor (redisStore: RedisStore)
      ensures this.redisStore == redisStore && View() == Readers(redisStore.store, [], [])
    {
      this.redisStore, listeners, answers := redisStore, [], [];
    }

    ghost function View(): Readers
      reads this, redisStore
    {
      Readers(redisStore.store, listeners, answers)
    }

    /** processXRead. */
    method ProcessXRead(keys: seq<string>, ids: seq<string>) returns (results: Reply, hasNewData: bool)
      requires |keys| == |ids|
      ensures results == ReadAll(redisStore.store, keys, ids)
      ensures hasNewData <==> results != []
    {
      hide GetEntryRange, EntriesAt, ReadAll;
      results, hasNewData := [], false;
      assert keys[0..] == keys && ids[0..] == ids;
      for i := 0 to |keys|
        invariant results + ReadAll(redisStore.store, keys[i..], ids[i..]) == ReadAll(redisStore.store, keys, ids)
        invariant hasNewData <==> results != []
      {
        ReadsOneMore(redisStore.store, keys, ids, i);
        var entries := After(EntriesAt(redisStore.store, keys[i]), ids[i]);
        if entries != [] {
          hasNewData := true;
          results := results + [(keys[i], entries)];
        }
      }
      NothingMore(redisStore.store, keys, ids);
      assert results + [] == results;
    }

    /** XREAD BLOCK: answer at once, or register a listener with the IDs resolved now. */
    method Block(keys: seq<string>, ids: seq<string>)
      modifies this
      ensures View() == StreamReads.Next(old(View()), Step.Block(keys, ids))
    {
      hide ReadAll, ResolveIds;
      if |keys| != |ids| { return; }
      var resolvedStreamIds := ResolveIds(redisStore.store, keys, ids);
      var results, hasNewData := ProcessXRead(keys, resolvedStreamIds);
      if hasNewData {
        answers := answers + [(Listener(keys, resolvedStreamIds), results)];
      } else {
        listeners := listeners + [Listener(keys, resolvedStreamIds)];
      }
    }

    /** The "new-entry" event: every listener registered by now looks again. */
    method NotifyNewEntry(key: string)
      requires forall i :: 0 <= i < |listeners| ==> |listeners[i].keys| == |listeners[i].ids|
      modifies this
      ensures listeners == StillListening(redisStore.store, old(listeners), key)
      ensures answers == old(answers) + Answered(redisStore.store, old(listeners), key)
    {
      hide ReadAll, StillListening, Answered;
      var registered := listeners;
      ghost var s := redisStore.store;
      listeners := [];
      assert registered[0..] == registered;
      for i := 0 to |registered|
        invariant listeners + StillListening(s, registered[i..], key) == StillListening(s, registered, key)
        invariant answers + Answered(s, registered[i..], key) == old(answers) + Answered(s, registered, key)
      {
        var l := registered[i];
        LooksAgain(s, registered, i, key);
        var resolved := false;
        if key in l.keys {
          var results, hasNewData := ProcessXRead(l.keys, l.ids);
          if hasNewData {
            resolved := true;
            answers := answers + [(l, results)];
          }
        }
        if !resolved { listeners := listeners + [l]; }
      }
      NobodyLeft(s, registered, key);
      assert listeners + [] == listeners && answers + [] == answers;
    }

    /** XADD, with its notification. */
    method XAddCommand(key: string, request: string, fields: seq<string>, now: nat) returns (reply: string)
      requires forall i :: 0 <= i < |listeners| ==> |listeners[i].keys| == |listeners[i].ids|
      modifies this, redisStore
      ensures reply == XAdd(now, old(redisStore.store), [key, request] + fields).reply
      ensures View() == StreamReads.Next(old(View()), Step.Add(key, request, fields, now))
    {
      hide XAdd, StillListening, Answered, IsError;
      reply := CommandMethods.XAddCommand(redisStore, now, [key, request] + fields);
      if !IsError(reply) { NotifyNewEntry(key); }
    }
  }

  lemma ReadsOneMore(s: Store, keys: seq<string>, ids: seq<string>, i: nat)
    requires i < |keys| == |ids|
    ensures var news := After(EntriesAt(s, keys[i]), ids[i]);
            ReadAll(s, keys[i..], ids[i..]) == (if news == [] then [] else [(keys[i], news)]) + ReadAll(s, keys[i + 1..], ids[i + 1..])
  {
    hide GetEntryRange, EntriesAt;
    assert keys[i..][0] == keys[i] && keys[i..][1..] == keys[i + 1..];
    assert ids[i..][0] == ids[i] && ids[i..][1..] == ids[i + 1..];
  }

  lemma NothingMore(s: Store, keys: seq<string>, ids: seq<string>)
    requires |keys| == |ids|
    ensures ReadAll(s, keys[|keys|..], ids[|ids|..]) == []
  {
  }

  lemma LooksAgain(s: Store, ls: seq<Listener>, i: nat, key: string)
    requires i < |ls|
    ensures StillListening(s, ls[i..], key) == (if Answers(s, ls[i], key) then [] else [ls[i]]) + StillListening(s, ls[i + 1..], key)
    ensures Answered(s, ls[i..], key)
         == (if Answers(s, ls[i], key) then [(ls[i], ReadAll(s, ls[i].keys, ls[i].ids))] else []) + Answered(s, ls[i + 1..], key)
  {
    hide ReadAll;
    assert ls[i..][0] == ls[i] && ls[i..][1..] == ls[i + 1..];
  }

  lemma NobodyLeft(s: Store, ls: seq<Listener>, key: string)
    ensures StillListening(s, ls[|ls|..], key) == [] && Answered(s, ls[|ls|..], key) == []
  {
  }
}
