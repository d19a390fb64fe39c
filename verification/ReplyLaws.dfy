/** What the list, stream and deletion commands answer and store, in plain terms. */
module ReplyLaws {
  import opened Text
  import opened Store
  import opened Commands
  import opened CommandLaws
  import opened StreamIds
  import opened StreamOrder
  import Resp

  lemma IntText(n: nat)
    ensures IntReply(n) == ":" + Dec(n) + "\r\n"
  {
  }

  // ---- lists --------------------------------------------------------------------------------------------------------

  /** A list is stored under the key: its place in the order and its expiry stay, a new key comes last without expiry,
      and no other key changes. */
  ghost predicate ListStored(s: Store, t: Store, key: string, items: seq<string>) {
    && t.Get(key) == Some(StoreValue(List(items), if key in s.values then s.values[key].expiration else Never))
    && t.order == (if key in s.values then s.order else s.order + [key])
    && forall k :: k != key ==> t.Get(k) == s.Get(k)
  }

  lemma StoredList(s: Store, key: string, items: seq<string>)
    ensures ListStored(s, StoreList(s, key, items), key, items)
  {
  }

  /** RPUSH puts the items behind the list, in order; LPUSH puts them in front, the last one first; both answer the new
      length. */
  lemma PushesMean(s: Store, key: string, items: seq<string>) returns (front: seq<string>)
    requires items != [] && (key in s.values ==> s.values[key].value.List?)
    ensures |front| == |items| && forall i :: 0 <= i < |items| ==> front[i] == items[|items| - 1 - i]
    ensures var old_ := if key in s.values then s.values[key].value.items else [];
            var r, l := RPush(s, [key] + items), LPush(s, [key] + items);
            && r.reply == l.reply == ":" + Dec(|old_| + |items|) + "\r\n"
            && ListStored(s, r.store, key, old_ + items) && ListStored(s, l.store, key, front + old_)
  {
    hide Dec, IntReply, StoreList, ListStored, Reverse;
    assert ([key] + items)[1..] == items;
    var old_ := ListAt(s, key);
    front := Reverse(items);
    IntText(|old_| + |items|);
    StoredList(s, key, old_ + items);
    StoredList(s, key, front + old_);
    assert |front + old_| == |old_ + items| == |old_| + |items|;
  }

  /** LPOP takes the head and answers it; on a missing key it answers nil. With a count it takes and answers that
      many, or all there are. An emptied list is deleted. */
  lemma PopMeans(s: Store, key: string, n: nat)
    requires key in s.values ==> s.values[key].value.List? && s.values[key].value.items != [] && s.values[key].value.items[0] != ""
    ensures var one, many := LPop(s, [key]), LPop(s, [key, Dec(n)]);
            if key !in s.values then one == Outcome(s, "$-1\r\n") && many == Outcome(s, "*0\r\n")
            else
              var items := s.values[key].value.items;
              var k := if n <= |items| then n else |items|;
              && one.reply == Resp.Bulk(items[0]) && many.reply == Resp.ToRESP(items[..k])
              && (if |items| == 1 then one.store == s.Delete(key) else ListStored(s, one.store, key, items[1..]))
              && (if k == |items| then many.store == s.Delete(key) else ListStored(s, many.store, key, items[k..]))
  {
    hide Dec, ParseInt, Resp.Bulk;
    ParseDec(n);
    assert Dec(n) != "";
    EmptyArray();
    if key in s.values {
      var items := s.values[key].value.items;
      assert items[1..] == [] <==> |items| == 1;
    }
  }

  lemma EmptyArray()
    ensures Resp.ToRESP([]) == "*0\r\n"
  {
    assert Dec(0) == "0";
  }

  /** DEL deletes exactly the named keys and answers how many of them were there, a repeated name once. */
  lemma DelMeans(s: Store, keys: seq<string>)
    requires keys != []
    ensures var o := Del(s, keys);
            && o.reply == ":" + Dec(|set k | k in keys && k in s.values|) + "\r\n"
            && forall k :: o.store.Get(k) == if k in keys then None else s.Get(k)
  {
    hide DeleteAll, Dec, IntReply;
    DelRemovesExactly(s, keys);
    IntText(|set k | k in keys && k in s.values|);
  }

  // ---- streams ------------------------------------------------------------------------------------------------------

  lemma StarSplits(ms: nat)
    ensures Ms(Join(Dec(ms), "*")) == Dec(ms) && Seq(Join(Dec(ms), "*")) == "*"
  {
    hide Dec, DashAt, Join;
    forall j | 0 <= j < |Dec(ms)| ensures Dec(ms)[j] != '-' { assert IsDigit(Dec(ms)[j]); }
    SplitJoin(Dec(ms), "*");
  }

  lemma NumbersSplit(ms: nat, sequence: nat)
    ensures Ms(Join(Dec(ms), Dec(sequence))) == Dec(ms) && Seq(Join(Dec(ms), Dec(sequence))) == Dec(sequence)
  {
    hide Dec, DashAt, Join;
    forall j | 0 <= j < |Dec(ms)| ensures Dec(ms)[j] != '-' { assert IsDigit(Dec(ms)[j]); }
    forall j | 0 <= j < |Dec(sequence)| ensures Dec(sequence)[j] != '-' { assert IsDigit(Dec(sequence)[j]); }
    SplitJoin(Dec(ms), Dec(sequence));
  }

  /** The sequence number the server chooses: on a new stream 1 for millisecond 0 and otherwise 0; the next one within
      the millisecond of the top ID; 0 in a later millisecond. `*` is the millisecond of now. */
  lemma ChosenSequences(ms: nat, top: nat, sequence: nat, now: nat)
    ensures GenerateEntryId(Dec(ms) + "-*", None, now) == Some(Dec(ms) + "-" + if ms == 0 then "1" else "0")
    ensures GenerateEntryId(Dec(ms) + "-*", Some(Dec(ms) + "-" + Dec(sequence)), now) == Some(Dec(ms) + "-" + Dec(sequence + 1))
    ensures ms != top && !Less(Dec(ms), Dec(top)) ==>
              GenerateEntryId(Dec(ms) + "-*", Some(Dec(top) + "-" + Dec(sequence)), now) == Some(Dec(ms) + "-0")
    ensures forall last :: GenerateEntryId("*", last, now) == GenerateEntryId(Dec(now) + "-*", last, now)
  {
    hide Dec, DashAt, Less, NumberOf, Ms, Seq;
    StarSplits(ms);
    NumbersSplit(ms, sequence);
    NumbersSplit(top, sequence);
    ValueOfDec(sequence);
    ValueOfDec(ms);
    ValueOfDec(top);
    ValueOfDec(0);
    ZeroIsZero();
    assert Join(Dec(ms), "*") == Dec(ms) + "-*" && Join(Dec(now), "*") == Dec(now) + "-*";
    assert Dec(ms) + "-" + "0" == Dec(ms) + "-0";
  }

  predicate IsNumeral(s: string) { s != "" && AllDigits(s) }

  predicate Spells(s: string, ms: string, sequence: string) {
    IsNumeral(ms) && (sequence == "*" || IsNumeral(sequence)) && s == ms + "-" + sequence
  }

  /** The IDs a client may send: a star, or a number, a dash, and a number or a star. */
  lemma RequestsAreWritten(s: string)
    ensures IsStreamId(s) <==> s == "*" || exists ms, sequence :: Spells(s, ms, sequence)
  {
    hide DashAt;
    if s != "*" && IsStreamId(s) {
      assert s == Ms(s) + "-" + Seq(s);
      assert Spells(s, Ms(s), Seq(s));
    }
    if ms, sequence :| Spells(s, ms, sequence) { NumeralsSplit(ms, sequence); }
  }

  lemma NumeralsSplit(ms: string, sequence: string)
    requires IsNumeral(ms) && (sequence == "*" || IsNumeral(sequence))
    ensures IsStreamId(ms + "-" + sequence)
  {
    hide DashAt;
    forall j | 0 <= j < |ms| ensures ms[j] != '-' { assert IsDigit(ms[j]); }
    forall j | 0 <= j < |sequence| ensures sequence[j] != '-' { assert sequence != "*" ==> IsDigit(sequence[j]); }
    SplitJoin(ms, sequence);
    assert Join(ms, sequence) == ms + "-" + sequence;
    SplitsInside(ms, sequence);
  }

  lemma SplitsInside(ms: string, sequence: string)
    ensures DashAt(ms + "-" + sequence) < |ms + "-" + sequence|
  {
    assert (ms + "-" + sequence)[|ms|] == '-';
  }

  /** There is no such key, or a stream whose last entry has this ID. */
  ghost predicate Tops(s: Store, key: string, top: Option<string>) {
    match top
    case None => key !in s.values
    case Some(id) =>
      && key in s.values && s.values[key].value.Stream? && s.values[key].value.entries != []
      && s.values[key].value.entries[|s.values[key].value.entries| - 1].id == id
  }

  lemma AcceptedIsAnswered(now: nat, s: Store, key: string, request: string, fields: seq<string>, top: Option<string>, id: string)
    requires |fields| >= 2 && Tops(s, key, top) && IsStreamId(request) && request != "0-0"
    requires GenerateEntryId(request, top, now) == Some(id) && id != ""
    ensures XAdd(now, s, [key, request] + fields).reply == Resp.Bulk(id)
  {
    hide GenerateEntryId, IsStreamId, Resp.Bulk;
    var args := [key, request] + fields;
    assert args[0] == key && args[1] == request && args[2..] == fields;
  }

  /** `ms-*`: the server answers sequence 1 for millisecond 0 and otherwise 0 on a new stream, the next one within the
      millisecond of the top ID, and 0 in a later millisecond of as many digits. `*` is the millisecond of now. */
  lemma XAddChooses(now: nat, s: Store, key: string, ms: nat, fields: seq<string>, top: nat, sequence: nat)
    requires |fields| >= 2 && (Tops(s, key, None) || Tops(s, key, Some(Dec(top) + "-" + Dec(sequence))))
    ensures var reply := XAdd(now, s, [key, Dec(ms) + "-*"] + fields).reply;
            if Tops(s, key, None) then reply == Resp.Bulk(Dec(ms) + "-" + if ms == 0 then "1" else "0")
            else
              && (ms == top ==> reply == Resp.Bulk(Dec(ms) + "-" + Dec(sequence + 1)))
              && (ms > top && |Dec(ms)| == |Dec(top)| ==> reply == Resp.Bulk(Dec(ms) + "-0"))
    ensures ms == now ==> XAdd(now, s, [key, "*"] + fields).reply == XAdd(now, s, [key, Dec(ms) + "-*"] + fields).reply
  {
    hide Dec, XAdd, Less, NumberOf, GenerateEntryId, IsStreamId, Resp.Bulk, Tops;
    var request := Dec(ms) + "-*";
    ChosenSequences(ms, top, sequence, now);
    assert IsNumeral(Dec(ms)) && request == Dec(ms) + "-" + "*";
    NumeralsSplit(Dec(ms), "*");
    StarIsAnId();
    assert request[|request| - 1] == '*';
    ValueOfDec(ms);
    ValueOfDec(top);
    if ms > top && |Dec(ms)| == |Dec(top)| { SameWidthIsNumeric(Dec(ms), Dec(top)); }
    var last := if Tops(s, key, None) then None else Some(Dec(top) + "-" + Dec(sequence));
    var made := GenerateEntryId(request, last, now);
    if made.Some? {
      IdsAreNotEmpty(request, last, now);
      AcceptedIsAnswered(now, s, key, request, fields, last, made.value);
      if ms == now { AcceptedIsAnswered(now, s, key, "*", fields, last, made.value); }
    } else if ms == now {
      RefusedIsAnswered(now, s, key, request, fields, last);
      RefusedIsAnswered(now, s, key, "*", fields, last);
    }
  }

  lemma StarIsAnId()
    ensures IsStreamId("*")
  {
  }

  lemma RefusedIsAnswered(now: nat, s: Store, key: string, request: string, fields: seq<string>, top: Option<string>)
    requires |fields| >= 2 && Tops(s, key, top) && IsStreamId(request) && request != "0-0"
    requires GenerateEntryId(request, top, now) == None
    ensures XAdd(now, s, [key, request] + fields).reply == NOT_ABOVE_TOP
  {
    hide GenerateEntryId, IsStreamId, NOT_ABOVE_TOP;
    var args := [key, request] + fields;
    assert args[0] == key && args[1] == request && args[2..] == fields;
  }

  /** An ID that a client names itself is answered as it is when it is the first one. */
  lemma NamedIdIsKept(now: nat, s: Store, key: string, ms: nat, sequence: nat, fields: seq<string>)
    requires |fields| >= 2 && Tops(s, key, None) && (ms > 0 || sequence > 0)
    ensures XAdd(now, s, [key, Dec(ms) + "-" + Dec(sequence)] + fields).reply == Resp.Bulk(Dec(ms) + "-" + Dec(sequence))
  {
    hide Dec, XAdd, DashAt, Ms, Seq, IsStreamId, Resp.Bulk, NumberOf;
    var request := Dec(ms) + "-" + Dec(sequence);
    NumeralsSplit(Dec(ms), Dec(sequence));
    NumbersSplit(ms, sequence);
    assert Join(Dec(ms), Dec(sequence)) == request;
    ZeroSplits();
    ValueOfDec(ms);
    ValueOfDec(sequence);
    assert IsDigit(Dec(sequence)[0]);
    AcceptedIsAnswered(now, s, key, request, fields, None, request);
  }

  lemma ZeroSplits()
    ensures Ms("0-0") == "0" && Seq("0-0") == "0" && NumberOf("0") == 0
  {
    assert DashAt("0-0") == 1 && "0-0"[..1] == "0" && "0-0"[2..] == "0";
    assert "0"[..0] == "";
  }

  /** XADD answers the ID under which it has stored the fields, at the end of the stream; the stream keeps its place
      and its expiry, and no other key changes. Otherwise it answers an error and changes nothing. */
  lemma XAddMeans(now: nat, s: Store, key: string, request: string, fields: seq<string>) returns (id: string)
    ensures var o := XAdd(now, s, [key, request] + fields);
            if IsError(o.reply) then o.store == s
            else
              var entries := if key in s.values && s.values[key].value.Stream? then s.values[key].value.entries else [];
              && id != "" && o.reply == Resp.Bulk(id)
              && o.store.Get(key) == Some(StoreValue(Stream(entries + [Entry(id, fields)]),
                                                     if key in s.values then s.values[key].expiration else Never))
              && o.store.order == (if key in s.values then s.order else s.order + [key])
              && forall k :: k != key ==> o.store.Get(k) == s.Get(k)
  {
    hide GenerateEntryId, IsStreamId, Resp.Bulk;
    var args := [key, request] + fields;
    assert |args| >= 2 && args[2..] == fields && args[0] == key && args[1] == request;
    id := "";
    if |args| >= 4 && request != "0-0" && IsStreamId(request) && (key in s.values ==> s.values[key].value.Stream?) {
      var made := GenerateEntryId(request, TopId(EntriesAt(s, key)), now);
      if made.Some? {
        id := made.value;
        IdsAreNotEmpty(request, TopId(EntriesAt(s, key)), now);
        BulksAreNoErrors(id);
      }
    }
  }

  lemma IdsAreNotEmpty(request: string, last: Option<string>, now: nat)
    requires IsStreamId(request) && GenerateEntryId(request, last, now).Some?
    ensures GenerateEntryId(request, last, now).value != ""
  {
    hide Less, Dec, DashAt;
  }

  lemma BulksAreNoErrors(text: string)
    ensures !IsError(BulkReply(text))
  {
  }

  /** XADD refuses with its own errors: 0-0 and what is no ID, a key of another type, an ID that the stream does not
      take, missing fields. */
  lemma XAddRefuses(now: nat, s: Store, key: string, request: string, fields: seq<string>)
    ensures var o := XAdd(now, s, [key, request] + fields);
            && (|fields| < 2 ==> IsError(o.reply))
            && (|fields| >= 2 && (request == "0-0" || !IsStreamId(request)) ==>
                  o.reply == "-ERR " + "The ID specified in XADD must be greater than 0-0" + "\r\n")
            && (|fields| >= 2 && request != "0-0" && IsStreamId(request) && key in s.values && !s.values[key].value.Stream? ==>
                  o.reply == "-ERR " + "WRONGTYPE Operation against a key holding the wrong kind of value" + "\r\n")
            && (Accepted(Add(request, fields, now), s, key) <==> !IsError(o.reply))
  {
    hide GenerateEntryId, IsStreamId, Less;
    var args := [key, request] + fields;
    assert args[0] == key && args[1] == request;
    if GenerateEntryId(request, TopId(EntriesAt(s, key)), now).Some? {
      BulksAreNoErrors(GenerateEntryId(request, TopId(EntriesAt(s, key)), now).value);
    }
  }

  // ---- keys of another type --------------------------------------------------------------------------------------------

  /** List commands and INCR on a key of another type answer an error of their own and change nothing. */
  lemma OtherTypesAreRefused(s: Store, key: string, items: seq<string>)
    requires key in s.values && items != []
    ensures var wrong := Outcome(s, "-ERR " + "WRONGTYPE Operation against a key holding the wrong kind of value" + "\r\n");
            !s.values[key].value.List? ==>
              RPush(s, [key] + items) == wrong && LPush(s, [key] + items) == wrong && LPop(s, [key]) == wrong
    ensures !s.values[key].value.Str? || ParseInt(s.values[key].value.text) == None ==>
              Incr(s, [key]) == Outcome(s, "-ERR " + "value is not an integer or out of range" + "\r\n")
  {
    hide ParseInt;
  }

  // ---- calls that are refused -------------------------------------------------------------------------------------------

  /** The error of a call with too few or too many arguments; nothing changes. */
  function Miscalled(s: Store, name: string): Outcome {
    Outcome(s, "-ERR " + ("wrong number of arguments for '" + name + "' command") + "\r\n")
  }

  /** How many arguments each command takes. */
  lemma CallsAreCounted(env: Env, s: Store, args: seq<string>)
    ensures |args| < 2 ==> Set(env.now, s, args) == Miscalled(s, "set")
    ensures |args| != 1 ==> Get(env, s, args) == Outcome(s, "-ERR " + "Wrong number of arguments for GET" + "\r\n")
    ensures |args| == 0 ==> Del(s, args) == Miscalled(s, "del")
    ensures |args| != 1 ==> Incr(s, args) == Miscalled(s, "incr")
    ensures |args| != 2 ==> Expire(env.now, s, args) == Miscalled(s, "expire")
    ensures |args| < 2 ==> RPush(s, args) == Miscalled(s, "rpush") && LPush(s, args) == Miscalled(s, "lpush")
    ensures |args| != 1 && |args| != 2 ==> LPop(s, args) == Miscalled(s, "lpop")
    ensures |args| < 4 ==> XAdd(env.now, s, args) == Miscalled(s, "xadd")
  {
    hide ArgumentError, ParseOptions, SetWith, DeleteAll, ListAt, StoreList, UpdateStore, Reverse, ParseInt,
         DecInt, GenerateEntryId, IsStreamId;
    GetText();
    forall name ensures Outcome(s, ArgumentError(name)) == Miscalled(s, name) { ArgumentText(name); }
  }

  lemma ArgumentText(name: string)
    ensures ArgumentError(name) == "-ERR " + ("wrong number of arguments for '" + name + "' command") + "\r\n"
  {
  }

  lemma GetText()
    ensures "-ERR Wrong number of arguments for GET\r\n" == "-ERR " + "Wrong number of arguments for GET" + "\r\n"
  {
  }

  /** Where a number is wanted: EXPIRE of a present key, and the count of LPOP, which must not be negative either. */
  lemma NumbersAreAsked(now: nat, s: Store, key: string, text: string)
    ensures var refused := Outcome(s, "-ERR " + "value is not an integer or out of range" + "\r\n");
            && (ParseInt(text) == None && key in s.values ==> Expire(now, s, [key, text]) == refused)
            && (text != "" && (ParseInt(text) == None || ParseInt(text).value < 0) ==> LPop(s, [key, text]) == refused)
            && (key !in s.values ==> Expire(now, s, [key, text]) == Outcome(s, ":0\r\n"))
  {
    hide ParseInt;
    IntTexts();
  }
}
