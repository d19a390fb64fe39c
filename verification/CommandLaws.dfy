/** What the store commands mean together: a read after a write, a pop after a push, repeated increments. */
module CommandLaws {
  import opened Text
  import opened Store
  import opened Commands
  import Resp

  // ---- SET and GET -----------------------------------------------------------------------------------

  /** The option loop goes on where it stood: complete options in front only set the starting point. */
  lemma {:induction false} OptionsCompose(a: seq<string>, b: seq<string>, o: Options)
    requires ParseOptions(a, o).Some?
    ensures ParseOptions(a + b, o) == ParseOptions(b, ParseOptions(a, o).value)
    decreases |a|
  {
    hide ParseInt, Upper;
    if a == [] {
      assert a + b == b;
    } else if TakesTime(Upper(a[0])) {
      assert (a + b)[2..] == a[2..] + b;
      OptionsCompose(a[2..], b, o.(time := TimeOption(Upper(a[0]), ParseInt(a[1]))));
    } else {
      var option := Upper(a[0]);
      var p := if option == "NX" then o.(mode := IfAbsent) else if option == "XX" then o.(mode := IfPresent) else o.(keepTtl := true);
      assert (a + b)[1..] == a[1..] + b;
      OptionsCompose(a[1..], b, p);
    }
  }

  /** SET reads back: exactly until the expiry it set or kept has passed, GET answers the text; and no
      other key has changed. */
  lemma SetThenGet(now: nat, later: Env, s: Store, key: string, text: string, o: Options)
    requires ModeAllows(o.mode, key in s.values) && text != ""
    ensures var t := SetWith(now, s, key, text, o).store;
            var expiry := if o.keepTtl && key in s.values then s.values[key].expiration else ExpiryOf(o.time, now);
            && Get(later, t, [key]).reply == (if IsExpired(expiry, later.now) then NIL else Resp.Bulk(text))
            && forall k :: k != key ==> t.Get(k) == s.Get(k)
  {
    hide ExpiryOf, Resp.Bulk;
  }

  /** NX and XX: the reply is nil exactly when the mode forbids the write, and then nothing changes. */
  lemma SetWritesExactlyWhenAllowed(now: nat, s: Store, key: string, text: string, o: Options)
    ensures var r := SetWith(now, s, key, text, o);
            && (r.reply == OK <==> ModeAllows(o.mode, key in s.values))
            && (r.reply == NIL <==> r.reply != OK)
            && (r.reply == NIL ==> r.store == s)
            && (r.reply == OK ==> key in r.store.values && r.store.values[key].value == Str(text))
  {
    assert OK[0] != NIL[0];
  }

  lemma OptionNames()
    ensures Upper("EX") == "EX" && Upper("PX") == "PX" && Upper("EXAT") == "EXAT" && Upper("PXAT") == "PXAT"
  {
  }

  /** SET with a lifetime: EX n and PX 1000n are the same command, and the key reads back for exactly that
      long, by the reader's clock. */
  lemma LifetimeIsKept(now: nat, later: Env, s: Store, key: string, text: string, n: nat)
    requires 0 < n && now + n * 1000 <= MAX_DATE && text != ""
    ensures var t := Set(now, s, [key, text, "EX", Dec(n)]).store;
            && t == Set(now, s, [key, text, "PX", Dec(n * 1000)]).store
            && Get(later, t, [key]).reply == if later.now <= now + n * 1000 then Resp.Bulk(text) else NIL
  {
    hide ParseInt, Dec, Upper, Resp.Bulk;
    OptionNames();
    ParseDec(n);
    ParseDec(n * 1000);
    OneOption("EX", Dec(n));
    OneOption("PX", Dec(n * 1000));
    assert [key, text, "EX", Dec(n)][2..] == ["EX", Dec(n)];
    assert [key, text, "PX", Dec(n * 1000)][2..] == ["PX", Dec(n * 1000)];
  }

  /** The absolute forms: EXAT n and PXAT 1000n are the same command, and no clock matters to them. */
  lemma AbsoluteFormsAgree(now: nat, other: nat, s: Store, key: string, text: string, n: nat)
    ensures Set(now, s, [key, text, "EXAT", Dec(n)]) == Set(other, s, [key, text, "PXAT", Dec(n * 1000)])
  {
    hide ParseInt, Dec, Upper;
    OptionNames();
    ParseDec(n);
    ParseDec(n * 1000);
    OneOption("EXAT", Dec(n));
    OneOption("PXAT", Dec(n * 1000));
    assert [key, text, "EXAT", Dec(n)][2..] == ["EXAT", Dec(n)];
    assert [key, text, "PXAT", Dec(n * 1000)][2..] == ["PXAT", Dec(n * 1000)];
  }

  lemma OneOption(option: string, time: string)
    requires TakesTime(Upper(option)) && time != ""
    ensures ParseOptions([option, time], NO_OPTIONS) == Some(NO_OPTIONS.(time := TimeOption(Upper(option), ParseInt(time))))
  {
    hide ParseInt, Upper;
    assert [option, time][2..] == [];
  }

  // ---- SET's options, as they are written --------------------------------------------------------------------------

  lemma ModeNames()
    ensures Upper("NX") == "NX" && Upper("XX") == "XX" && Upper("KEEPTTL") == "KEEPTTL"
    ensures Upper("nx") == "NX" && Upper("xx") == "XX" && Upper("keepttl") == "KEEPTTL"
  {
  }

  lemma OneMode(option: string, o: Options)
    requires Upper(option) in {"NX", "XX", "KEEPTTL"}
    ensures ParseOptions([option], o) == Some(if Upper(option) == "NX" then o.(mode := IfAbsent)
                                              else if Upper(option) == "XX" then o.(mode := IfPresent) else o.(keepTtl := true))
  {
    hide Upper;
    assert [option][1..] == [];
  }

  /** SET without options stores the text without expiry, over whatever was there. */
  lemma PlainSetWrites(now: nat, s: Store, key: string, text: string)
    ensures Set(now, s, [key, text]) == Outcome(s.Set(key, StoreValue(Str(text), Never)), "+OK\r\n")
  {
    assert [key, text][2..] == [];
  }

  /** NX writes exactly if the key is absent, XX exactly if it is present; else the answer is nil and nothing changes.
      KEEPTTL keeps the old expiry. In lower case they mean the same. */
  lemma SetModesMean(now: nat, s: Store, key: string, text: string)
    ensures var plain, refused := Set(now, s, [key, text]), Outcome(s, "$-1\r\n");
            var kept := Outcome(s.Set(key, StoreValue(Str(text), ExpirationAt(s, key))), "+OK\r\n");
            && Set(now, s, [key, text, "NX"]) == (if key in s.values then refused else plain)
            && Set(now, s, [key, text, "XX"]) == (if key in s.values then plain else refused)
            && Set(now, s, [key, text, "KEEPTTL"]) == kept
            && Set(now, s, [key, text, "nx"]) == (if key in s.values then refused else plain)
            && Set(now, s, [key, text, "xx"]) == (if key in s.values then plain else refused)
            && Set(now, s, [key, text, "keepttl"]) == kept
  {
    hide Upper, ParseOptions;
    ModeNames();
    NoOptions();
    assert [key, text][2..] == [];
    forall option ensures [key, text, option][2..] == [option] {}
    forall option | Upper(option) in {"NX", "XX", "KEEPTTL"} { OneMode(option, NO_OPTIONS); }
  }

  lemma NoOptions()
    ensures ParseOptions([], NO_OPTIONS) == Some(NO_OPTIONS)
  {
  }

  /** Behind any options that are accepted, a final NX or XX decides. */
  lemma LastModeDecides(now: nat, s: Store, key: string, text: string, options: seq<string>)
    requires !IsError(Set(now, s, [key, text] + options).reply)
    ensures var nx := Set(now, s, [key, text] + options + ["NX"]);
            (nx.reply == OK <==> key !in s.values) && (nx.reply == NIL <==> key in s.values) && (key in s.values ==> nx.store == s)
    ensures var xx := Set(now, s, [key, text] + options + ["XX"]);
            (xx.reply == OK <==> key in s.values) && (xx.reply == NIL <==> key !in s.values) && (key !in s.values ==> xx.store == s)
  {
    hide Upper, ParseOptions, ExpiryOf;
    ModeNames();
    assert ([key, text] + options)[2..] == options;
    assert ([key, text] + options + ["NX"])[2..] == options + ["NX"];
    assert ([key, text] + options + ["XX"])[2..] == options + ["XX"];
    OptionsCompose(options, ["NX"], NO_OPTIONS);
    OptionsCompose(options, ["XX"], NO_OPTIONS);
    var o := ParseOptions(options, NO_OPTIONS).value;
    OneMode("NX", o);
    OneMode("XX", o);
    assert OK[0] != NIL[0];
  }

  /** PXAT: the key is answered exactly until that millisecond has passed, by the reader's clock. */
  lemma DeadlineIsKept(now: nat, later: Env, s: Store, key: string, text: string, n: nat)
    requires n <= MAX_DATE && text != ""
    ensures var t := Set(now, s, [key, text, "PXAT", Dec(n)]).store;
            Get(later, t, [key]).reply == if later.now <= n then Resp.Bulk(text) else "$-1\r\n"
  {
    hide ParseInt, Dec, Upper, Resp.Bulk;
    OptionNames();
    ParseDec(n);
    OneOption("PXAT", Dec(n));
    assert [key, text, "PXAT", Dec(n)][2..] == ["PXAT", Dec(n)];
  }

  /** A lifetime that is no number ends now, and a deadline that is none never comes. */
  lemma NoNumberMeans(now: Clock, later: Env, s: Store, key: string, text: string, option: string, time: string)
    requires text != "" && time != "" && ParseInt(time) == None
    ensures var t := Set(now, s, [key, text, option, time]).store;
            && (Upper(option) in {"EX", "PX"} ==> Get(later, t, [key]).reply == if later.now <= now then Resp.Bulk(text) else "$-1\r\n")
            && (Upper(option) in {"EXAT", "PXAT"} ==> Get(later, t, [key]).reply == Resp.Bulk(text))
  {
    hide ParseInt, Upper, Resp.Bulk, ParseOptions;
    if TakesTime(Upper(option)) { OneOption(option, time); }
    assert [key, text, option, time][2..] == [option, time];
  }

  /** Anything else is a syntax error and changes nothing: unknown words, and a time option without its number. */
  lemma OtherOptionsAreErrors(now: nat, s: Store, key: string, text: string, option: string)
    requires Upper(option) !in {"NX", "XX", "KEEPTTL"}
    ensures Set(now, s, [key, text, option]) == Set(now, s, [key, text, option, ""]) == Outcome(s, "-ERR syntax error\r\n")
  {
    hide Upper;
    assert [key, text, option][2..] == [option] && [option][1..] == [];
    assert [key, text, option, ""][2..] == [option, ""];
    assert Error("syntax error") == "-ERR syntax error\r\n";
  }

  // ---- EXPIRE ---------------------------------------------------------------------------------------------------------

  /** EXPIRE keeps the value and the insertion order and touches no other key; it answers 1, or 0 without effect for a
      missing key; and a text is then answered exactly until n seconds have passed. */
  lemma ExpireMeans(now: nat, later: Env, s: Store, key: string, n: int)
    requires -MAX_DATE <= now + n * 1000 <= MAX_DATE
    ensures var o := Expire(now, s, [key, DecInt(n)]);
            if key !in s.values then o == Outcome(s, ":0\r\n")
            else
              && o.reply == ":1\r\n" && o.store.order == s.order
              && key in o.store.values && o.store.values[key].value == s.values[key].value
              && (forall k :: k != key ==> o.store.Get(k) == s.Get(k))
              && (s.values[key].value.Str? && s.values[key].value.text != "" ==>
                    Get(later, o.store, [key]).reply
                    == if later.now <= now + n * 1000 then Resp.Bulk(s.values[key].value.text) else "$-1\r\n")
  {
    hide ParseInt, DecInt, Resp.Bulk, IntReply;
    ParseDecInt(n);
    IntTexts();
  }

  lemma IntTexts()
    ensures IntReply(0) == ":0\r\n" && IntReply(1) == ":1\r\n"
  {
    assert Dec(0) == "0" && Dec(1) == "1";
  }

  // ---- INCR -----------------------------------------------------------------------------------------

  function IncrTimes(s: Store, key: string, n: nat): Store {
    if n == 0 then s else Incr(IncrTimes(s, key, n - 1), [key]).store
  }

  /** The number a key stands for, and its expiry: a missing key is zero and does not expire. */
  ghost predicate Counts(s: Store, key: string, n: int, expiry: Expiry) {
    if key in s.values then s.values[key] == StoreValue(Str(DecInt(n)), expiry) else n == 0 && expiry == Never
  }

  lemma IncrementOnce(s: Store, key: string, n: int, expiry: Expiry)
    requires Counts(s, key, n, expiry)
    ensures var o := Incr(s, [key]);
            && o.reply == IntReply(n + 1)
            && Counts(o.store, key, n + 1, expiry) && key in o.store.values
            && (key in s.values ==> o.store.order == s.order)
            && forall k :: k != key ==> o.store.Get(k) == s.Get(k)
  {
    hide DecInt, ParseInt;
    ParseDecInt(n);
    OneIsOne();
  }

  /** n increments add n, whether the key exists or not, keep the expiry, and touch nothing else. */
  lemma {:induction false} IncrementsAdd(s: Store, key: string, start: int, expiry: Expiry, n: nat)
    requires Counts(s, key, start, expiry)
    ensures var t := IncrTimes(s, key, n);
            && Counts(t, key, start + n, expiry)
            && (n > 0 ==> key in t.values)
            && (key in s.values ==> t.order == s.order)
            && Incr(t, [key]).reply == IntReply(start + n + 1)
            && forall k :: k != key ==> t.Get(k) == s.Get(k)
  {
    hide Incr, Counts, IntReply;
    if n > 0 {
      IncrementsAdd(s, key, start, expiry, n - 1);
      IncrementOnce(IncrTimes(s, key, n - 1), key, start + n - 1, expiry);
    }
    IncrementOnce(IncrTimes(s, key, n), key, start + n, expiry);
  }

  lemma OneIsOne()
    ensures DecInt(1) == "1"
  {
    assert Dec(1) == "1";
  }

  // ---- DEL -------------------------------------------------------------------------------------------

  /** DEL removes exactly the named keys and counts those that were there, a repeated name once. */
  lemma {:induction false} DelRemovesExactly(s: Store, keys: seq<string>)
    ensures var (t, n) := DeleteAll(s, keys);
            && (forall k :: t.Get(k) == if k in keys then None else s.Get(k))
            && n == |set k | k in keys && k in s.values|
    decreases keys
  {
    if keys == [] {
      assert (set k | k in keys && k in s.values) == {};
    } else {
      var u := s.Delete(keys[0]);
      DelRemovesExactly(u, keys[1..]);
      var all, rest := set k | k in keys && k in s.values, set k | k in keys[1..] && k in u.values;
      assert forall k :: k in keys <==> k == keys[0] || k in keys[1..];
      assert all == if keys[0] in s.values then rest + {keys[0]} else rest;
    }
  }

  // ---- lists -----------------------------------------------------------------------------------------

  /** LPUSH of n elements and LPOP of n undo each other: the pop answers the elements, last one first,
      and the store is back where it was, insertion order and expiry included. */
  lemma PushThenPop(s: Store, key: string, items: seq<string>)
    requires s.Valid() && items != []
    requires key in s.values ==> s.values[key].value.List? && s.values[key].value.items != []
    ensures LPopCount(LPush(s, [key] + items).store, key, |items|) == Outcome(s, Resp.ToRESP(Reverse(items)))
  {
    hide Resp.ToRESP, DecInt, Without, ArgumentError;
    assert ([key] + items)[1..] == items;
    var before := ListAt(s, key);
    var t := LPush(s, [key] + items).store;
    assert t == StoreList(s, key, Reverse(items) + before);
    assert ListAt(t, key)[|items|..] == before && ListAt(t, key)[..|items|] == Reverse(items);
    if key in s.values {
      assert StoreList(t, key, before).values == s.values;
    } else {
      WithoutAbsent(s.order, key);
      assert t.Delete(key).values == s.values;
    }
  }

  /** RPUSH then a plain LPOP on an empty key gives the first element and leaves the others in order. */
  lemma PushedFirstPopsFirst(s: Store, key: string, items: seq<string>)
    requires key !in s.values && items != [] && items[0] != ""
    ensures var popped := LPop(RPush(s, [key] + items).store, [key]);
            popped.reply == Resp.Bulk(items[0]) && ListAt(popped.store, key) == items[1..]
  {
    hide Resp.Bulk, DecInt, Without, ArgumentError, ParseInt;
    assert ([key] + items)[1..] == items;
    var t := RPush(s, [key] + items).store;
    assert ListAt(t, key) == [] + items == items;
  }
}
