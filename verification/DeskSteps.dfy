/** The steps of the module Blocking are what the dispatcher does with these commands, up to the log of what it
    propagates; so the laws of blocking lists speak of dispatched commands. */
module DeskSteps {
  import opened Text
  import opened Store
  import opened Commands
  import opened Blocking
  import opened Dispatcher
  import opened Transactions

  lemma SimpleIsRun(env: Env, d: Desk, p: Payload)
    requires KindOf(NameOf(p)) == Some(Simple) && !IsAck(p) && p != []
    ensures SameButLog(Dispatch(env, FRESH, d, p).desk, RunSimple(env, d, NameOf(p), ArgsOf(p)).0)
  {
    hide RunSimple, KindOf, NameOf, ArgsOf, IsAck;
  }

  lemma Named(name: string, key: string, items: seq<string>)
    requires |Lower(name)| != 8
    ensures var p := [name, key] + items; NameOf(p) == Lower(name) && ArgsOf(p) == [key] + items && !IsAck(p)
  {
    hide Lower;
    assert |Lower("replconf")| == 8;
  }

  lemma Names(key: string, items: seq<string>)
    ensures var p := ["RPUSH", key] + items; NameOf(p) == "rpush" && ArgsOf(p) == [key] + items && !IsAck(p)
    ensures var p := ["LPUSH", key] + items; NameOf(p) == "lpush" && ArgsOf(p) == [key] + items && !IsAck(p)
    ensures var p := ["LPOP", key] + items; NameOf(p) == "lpop" && ArgsOf(p) == [key] + items && !IsAck(p)
    ensures var p := ["SET", key] + items; NameOf(p) == "set" && ArgsOf(p) == [key] + items && !IsAck(p)
    ensures var p := ["DEL", key] + items; NameOf(p) == "del" && ArgsOf(p) == [key] + items && !IsAck(p)
  {
    hide NameOf, ArgsOf, IsAck;
    LowerNames();
    Named("RPUSH", key, items);
    Named("LPUSH", key, items);
    Named("LPOP", key, items);
    Named("SET", key, items);
    Named("DEL", key, items);
  }

  lemma LowerNames()
    ensures Lower("RPUSH") == "rpush" && Lower("LPUSH") == "lpush" && Lower("LPOP") == "lpop" && Lower("SET") == "set" && Lower("DEL") == "del"
  {
  }

  lemma SimpleNames()
    ensures forall name :: name in {"rpush", "lpush", "lpop", "set", "del"} ==> KindOf(name) == Some(Simple)
  {
  }

  lemma PushesAreDeskSteps(env: Env, d: Desk, key: string, items: seq<string>)
    ensures SameButLog(Dispatch(env, FRESH, d, ["RPUSH", key] + items).desk, Next(d, Step.RPush(key, items)))
    ensures SameButLog(Dispatch(env, FRESH, d, ["LPUSH", key] + items).desk, Next(d, Step.LPush(key, items)))
  {
    hide Dispatch, NameOf, ArgsOf, IsAck, KindOf, Notify, Commands.RPush, Commands.LPush, Tagged;
    Names(key, items);
    SimpleNames();
    SimpleIsRun(env, d, ["RPUSH", key] + items);
    SimpleIsRun(env, d, ["LPUSH", key] + items);
    assert ([key] + items)[1..] == items;
    if items == [] { ShortPushes(d.store, key); }
  }

  lemma ShortPushes(s: Store, key: string)
    ensures var r, l := Commands.RPush(s, [key] + []), Commands.LPush(s, [key] + []);
            r.store == s && l.store == s && IsError(r.reply) && IsError(l.reply)
  {
  }

  lemma PopIsDeskStep(env: Env, d: Desk, key: string, count: Option<nat>)
    ensures var args := if count.Some? then [Dec(count.value)] else [];
            SameButLog(Dispatch(env, FRESH, d, ["LPOP", key] + args).desk, Next(d, Step.LPop(key, count)))
  {
    hide Dispatch, NameOf, ArgsOf, IsAck, KindOf, Commands.LPop, UpdateStore, Dec;
    var args := if count.Some? then [Dec(count.value)] else [];
    Names(key, args);
    SimpleNames();
    SimpleIsRun(env, d, ["LPOP", key] + args);
    assert [key] + args == if count.Some? then [key, Dec(count.value)] else [key];
    LPopIsPopCount(d, key, count);
    TakenIsPopped(d, key, if count.Some? then count.value else 1);
  }

  lemma TakenIsPopped(d: Desk, key: string, count: nat)
    ensures var e := PopCount(d, key, count);
            d.(store := e.store, delivered := d.delivered + Tagged(key, Taken(d.store, e.store, key))) == e
  {
    var items := ListAt(d.store, key);
    var n := if count <= |items| then count else |items|;
    if items == [] {
      assert d.delivered + [] == d.delivered;
    } else {
      assert ListAt(PopCount(d, key, count).store, key) == items[n..];
    }
  }

  lemma WritesAreDeskSteps(env: Env, d: Desk, key: string, text: string)
    ensures SameButLog(Dispatch(env, FRESH, d, ["SET", key, text]).desk, Next(d, Overwrite(key, text)))
    ensures SameButLog(Dispatch(env, FRESH, d, ["DEL", key]).desk, Next(d, Remove(key)))
  {
    hide Dispatch, NameOf, ArgsOf, IsAck, KindOf, Store.Delete, Store.Set;
    Names(key, [text]);
    Names(key, []);
    SimpleNames();
    assert ["SET", key, text] == ["SET", key] + [text] && ["DEL", key] == ["DEL", key] + [];
    SimpleIsRun(env, d, ["SET", key] + [text]);
    SimpleIsRun(env, d, ["DEL", key] + []);
    assert [key] + [text] == [key, text] && [key, text][2..] == [] && [key] + [] == [key] && [key][1..] == [];
    assert DeleteAll(d.store, [key]).0 == DeleteAll(d.store.Delete(key), []).0;
  }

  lemma BlpopIsDeskStep(env: Env, d: Desk, keys: seq<string>, timeout: nat)
    requires keys != []
    ensures Dispatch(env, FRESH, d, ["BLPOP"] + keys + [Dec(timeout)]).desk == Next(d, BLPop(keys, env.connection))
  {
    hide Block, Dec, ParseInt, PairReply;
    var p := ["BLPOP"] + keys + [Dec(timeout)];
    assert Lower("BLPOP") == "blpop" && p[0] == "BLPOP";
    var args := keys + [Dec(timeout)];
    assert p[1..] == args && args[..|args| - 1] == keys;
    ParseDec(timeout);
    assert KindOf("blpop") == Some(Stateful) && |Lower(p[0])| == 5;
  }
}
