/** Exactly which writes depend on the clock of the server that runs them. */
module Clocks {
  import opened Text
  import opened Store
  import opened Commands
  import opened Dispatcher
  import opened Propagation
  import opened StreamIds
  import opened StreamOrder
  import opened ClockIds

  function At(now: Clock): Env { Env(now, (s: Store, p: Payload) => "", 0) }

  // ---- expiry dates --------------------------------------------------------------------------------------

  /** A clock under which this span ends at a date that exists. */
  function Turn(span: Option<int>): Clock {
    if span.Some? && span.value < 0 then (if -span.value <= MAX_DATE then -span.value else MAX_DATE) else 0
  }

  /** And another clock. */
  function Other(now: Clock): Clock { if now == 0 then 1 else now - 1 }

  lemma DatesDiffer(span: Option<int>)
    requires DatesVary(span)
    ensures ExpirationDate(span, Turn(span)) != ExpirationDate(span, Other(Turn(span)))
  {
  }

  lemma SetDiffers(s: Store, args: seq<string>)
    requires SetNeedsClock(s, args)
    ensures exists now: Clock, later: Clock :: Commands.Set(now, s, args).store != Commands.Set(later, s, args).store
  {
    hide ParseOptions, ExpirationDate;
    var span := ParseOptions(args[2..], NO_OPTIONS).value.time.span;
    DatesDiffer(span);
    var now := Turn(span);
    var a, b := Commands.Set(now, s, args).store, Commands.Set(Other(now), s, args).store;
    assert a.Get(args[0]) != b.Get(args[0]);
  }

  lemma ExpireDiffers(s: Store, args: seq<string>)
    requires ExpireNeedsClock(s, args)
    ensures exists now: Clock, later: Clock :: Commands.Expire(now, s, args).store != Commands.Expire(later, s, args).store
  {
    hide ExpirationDate;
    var span := Some(ParseInt(args[1]).value * 1000);
    DatesDiffer(span);
    var now := Turn(span);
    var a, b := Commands.Expire(now, s, args).store, Commands.Expire(Other(now), s, args).store;
    assert a.Get(args[0]) != b.Get(args[0]);
  }

  // ---- stream IDs made from the clock ----------------------------------------------------------------------

  lemma XAddAccepted(now: nat, s: Store, args: seq<string>, id: string)
    requires XAddNeedsClock(s, args) && GenerateEntryId("*", TopId(EntriesAt(s, args[0])), now) == Some(id)
    ensures TopId(EntriesAt(Commands.XAdd(now, s, args).store, args[0])) == Some(id)
  {
    hide GenerateEntryId, BulkReply;
    var t := Commands.XAdd(now, s, args).store;
    assert t.Get(args[0]).Some?;
  }

  lemma XAddChanges(now: Clock, s: Store, args: seq<string>)
    requires |args| >= 4 && args[1] == "*"
    ensures var t := Commands.XAdd(now, s, args).store;
            t == s || TopId(EntriesAt(t, args[0])) == GenerateEntryId("*", TopId(EntriesAt(s, args[0])), now) != None
  {
    hide GenerateEntryId, BulkReply, Error;
    var t := Commands.XAdd(now, s, args).store;
    if t != s { assert t.Get(args[0]).Some?; }
  }

  /** The last clock appends an entry, and clock 0 a different one or none. */
  lemma XAddDiffers(s: Store, args: seq<string>)
    requires XAddNeedsClock(s, args)
    ensures Nines(15) <= MAX_DATE && Commands.XAdd(0, s, args).store != Commands.XAdd(Nines(15), s, args).store
  {
    hide GenerateEntryId, Commands.XAdd, Ms, Dec, Nines, Less;
    var top := TopId(EntriesAt(s, args[0]));
    LastClockIsOne();
    AnyClockStarts(Nines(15));
    if top.Some? { LastClockIsAccepted(top.value); }
    XAddAccepted(Nines(15), s, args, GenerateEntryId("*", top, Nines(15)).value);
    XAddChanges(0, s, args);
    XAddGrows(Nines(15), s, args);
    AcceptedTellsClock(top, Nines(15));
    if GenerateEntryId("*", top, 0).Some? { AcceptedTellsClock(top, 0); }
    assert Dec(0) != LAST_CLOCK by { ZeroIsZero(); }
  }

  lemma AnyClockStarts(now: nat)
    ensures GenerateEntryId("*", None, now).Some?
  {
    hide DashAt, Dec, Join;
  }

  /** An accepted XADD is visible. */
  lemma XAddGrows(now: nat, s: Store, args: seq<string>)
    requires XAddNeedsClock(s, args) && GenerateEntryId("*", TopId(EntriesAt(s, args[0])), now).Some?
    ensures Commands.XAdd(now, s, args).store != s
  {
    hide GenerateEntryId, BulkReply, Less, Ms;
    var t := Commands.XAdd(now, s, args).store;
    assert t.Get(args[0]).Some?;
    assert |EntriesAt(t, args[0])| == |EntriesAt(s, args[0])| + 1;
  }

  /** A write's effect is the same under all clocks that exist exactly when it needs no clock. */
  lemma ClockMattersExactly(s: Store, name: string, args: seq<string>)
    requires IsWrite(name)
    ensures (forall env, other :: Execute(env, s, name, args).store == Execute(other, s, name, args).store)
            <==> !NeedsClock(s, name, args)
  {
    hide IsWrite, Commands.Set, Commands.Expire, Commands.XAdd, SetNeedsClock, ExpireNeedsClock, XAddNeedsClock, Nines;
    if !NeedsClock(s, name, args) {
      forall env, other ensures Execute(env, s, name, args).store == Execute(other, s, name, args).store {
        SameUnderEveryClock(env, other, s, name, args);
      }
    } else if name == "set" {
      SetDiffers(s, args);
      var now: Clock, later: Clock :| Commands.Set(now, s, args).store != Commands.Set(later, s, args).store;
      assert Execute(At(now), s, name, args).store != Execute(At(later), s, name, args).store;
    } else if name == "expire" {
      ExpireDiffers(s, args);
      var now: Clock, later: Clock :| Commands.Expire(now, s, args).store != Commands.Expire(later, s, args).store;
      assert Execute(At(now), s, name, args).store != Execute(At(later), s, name, args).store;
    } else {
      XAddDiffers(s, args);
      assert Execute(At(0), s, name, args).store != Execute(At(Nines(15)), s, name, args).store;
    }
  }
}
