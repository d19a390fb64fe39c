/** The bytes of EXEC's answer, from the replies that the queued commands would get when sent plainly. */
module ExecAnswers {
  import opened Text
  import opened Commands
  import opened Blocking
  import opened Dispatcher
  import opened Transactions
  import opened TextLaws
  import opened WireLaws
  import Resp

  /** What a plain reply can be. */
  datatype Form = Silent | Missing | Whole(n: int) | Status(text: string) | Content(text: string) | Failure(text: string)

  function Sized(text: string): string { "$" + Dec(|text|) + "\r\n" + text + "\r\n" }

  /** As a plain reply. */
  function Rendered(f: Form): string {
    match f
    case Silent => ""
    case Missing => "$-1\r\n"
    case Whole(n) => ":" + DecInt(n) + "\r\n"
    case Status(text) => "+" + text + "\r\n"
    case Content(text) => Sized(text)
    case Failure(text) => "-" + text + "\r\n"
  }

  /** As an element of EXEC's array: a status becomes a bulk string, an error stays a line. */
  function Shown(f: Form): string {
    match f
    case Silent => "$-1\r\n"
    case Missing => "$-1\r\n"
    case Whole(n) => ":" + DecInt(n) + "\r\n"
    case Status(text) => Sized(text)
    case Content(text) => Sized(text)
    case Failure(text) => "-" + text + "\r\n"
  }

  predicate EndsBlank(text: string) { text != "" && IsSpace(text[|text| - 1]) }

  /** Text that survives being trimmed and cut into lines, and is not taken for an error. */
  ghost predicate Tidy(f: Form) {
    match f
    case Status(text) => text != "" && text[0] != '-' && !IsSpace(text[0]) && !EndsBlank(text)
    case Content(text) => text != "" && text[0] != '-' && OneLine(text) && !EndsBlank(text)
    case Failure(text) => !EndsBlank(text)
    case _ => true
  }

  // ---- trimming ---------------------------------------------------------------------------------------------------

  lemma {:induction false} TrimEndDropsBlanks(s: string, blanks: string)
    requires forall i :: 0 <= i < |blanks| ==> IsSpace(blanks[i])
    ensures TrimEnd(s + blanks) == TrimEnd(s)
    decreases |blanks|
  {
    if blanks == "" {
      assert s + blanks == s;
    } else {
      var n := |blanks| - 1;
      assert (s + blanks)[..|s + blanks| - 1] == s + blanks[..n];
      TrimEndDropsBlanks(s, blanks[..n]);
    }
  }

  /** A line is trimmed to its text. */
  lemma TrimsToText(text: string)
    requires text != "" && !IsSpace(text[0]) && !EndsBlank(text)
    ensures Trim(text + "\r\n") == text
  {
    TrimEndDropsBlanks(text, "\r\n");
    var s := text + "\r\n";
    assert SpaceEnd(s, 0) == 0 && s[0..] == s;
  }

  lemma {:induction false} TrimEndAfter(head: string, s: string)
    requires TrimEnd(s) != ""
    ensures TrimEnd(head + s) == head + TrimEnd(s)
    decreases |s|
  {
    if s != "" && IsSpace(s[|s| - 1]) {
      assert (head + s)[..|head + s| - 1] == head + s[..|s| - 1];
      TrimEndAfter(head, s[..|s| - 1]);
    } else if s != "" {
      assert (head + s)[|head + s| - 1] == s[|s| - 1];
    }
  }

  lemma {:induction false} TrimEndIsPrefix(s: string)
    ensures TrimEnd(s) <= s && (TrimEnd(s) == s <==> !EndsBlank(s))
    ensures TrimEnd(s) != "" ==> !EndsBlank(TrimEnd(s))
    decreases |s|
  {
    if s != "" && IsSpace(s[|s| - 1]) { TrimEndIsPrefix(s[..|s| - 1]); }
  }

  // ---- one element --------------------------------------------------------------------------------------------------

  lemma TrimSized(text: string)
    requires TrimEnd(text) != ""
    ensures Trim(Sized(text)) == ("$" + Dec(|text|)) + "\r\n" + TrimEnd(text)
  {
    hide Dec, TrimEnd;
    var head := ("$" + Dec(|text|)) + "\r\n";
    var raw := Sized(text);
    assert raw == (head + text) + "\r\n" && raw[0] == '$' && raw[0..] == raw;
    TrimEndDropsBlanks(head + text, "\r\n");
    TrimEndAfter(head, text);
  }

  lemma FirstLineEnds(size: string, rest: string)
    requires OneLine(size)
    ensures Resp.SplitLines(size + "\r\n" + rest) == [size] + Resp.SplitLines(rest)
  {
    var s := size + "\r\n" + rest;
    assert At(s, 0, size + CRLF) by { assert forall k :: 0 <= k < |size + CRLF| ==> s[k] == (size + CRLF)[k]; }
    LineEnd(s, 0, size);
    assert s[..|size|] == size && s[|size| + 2..] == rest;
  }

  /** The bulk reply of a text, trimmed and cut at its line ends: its size, and the lines of the trimmed text. */
  lemma ContentLines(text: string)
    requires TrimEnd(text) != ""
    ensures Resp.SplitLines(Trim(Sized(text))) == ["$" + Dec(|text|)] + Resp.SplitLines(TrimEnd(text))
  {
    hide Dec, TrimEnd, Trim, Sized, Resp.SplitLines;
    TrimSized(text);
    SizeIsOneLine(|text|);
    FirstLineEnds("$" + Dec(|text|), TrimEnd(text));
  }

  lemma SizeIsOneLine(n: nat)
    ensures OneLine("$" + Dec(n))
  {
    var s := "$" + Dec(n);
    forall i ensures !CrlfAt(s, i) { if 0 < i && i + 1 < |s| { assert s[i] == Dec(n)[i - 1] && IsDigit(Dec(n)[i - 1]); } }
  }

  lemma LinesOfOne(text: string)
    requires OneLine(text)
    ensures Resp.SplitLines(text) == [text]
  {
  }

  lemma SizedIsBulk(text: string)
    requires text != ""
    ensures BulkReply(text) == Sized(text)
  {
  }

  /** One reply, one element. */
  lemma OneShown(f: Form)
    requires Tidy(f)
    ensures |ItemsOf(Rendered(f))| == 1 && FormatItems(ItemsOf(Rendered(f))) == Shown(f)
  {
    hide Trim, ParseInt, DecInt, Dec, Resp.SplitLines, BulkReply;
    var raw := Rendered(f);
    match f
    case Silent => OneItem(Null);
    case Missing =>
      assert "$-1" <= raw;
      OneItem(Null);
    case Whole(n) =>
      NumberReads(n, "\r\n");
      assert raw[1..] == DecInt(n) + "\r\n";
      OneItem(Number(Some(n)));
    case Status(text) =>
      TrimsToText(text);
      assert raw[1..] == text + "\r\n";
      SizedIsBulk(text);
      OneItem(Line(text));
    case Content(text) =>
      TrimEndIsPrefix(text);
      ContentLines(text);
      LinesOfOne(text);
      NotMissing(text);
      SizedIsBulk(text);
      OneItem(Line(text));
    case Failure(text) =>
      assert EndsBlank("-" + text) ==> EndsBlank(text);
      TrimsToText("-" + text);
      assert raw == ("-" + text) + "\r\n";
      OneItem(Line("-" + text));
  }

  lemma OneItem(item: Item)
    ensures FormatItems([item]) == FormatItem(item)
  {
    hide FormatItem;
    assert [item][1..] == [] && FormatItem(item) + "" == FormatItem(item);
  }

  lemma NotMissing(text: string)
    ensures Sized(text) != "" && !("$-1" <= Sized(text)) && Sized(text)[0] == '$'
  {
    assert IsDigit(Dec(|text|)[0]) && Sized(text)[1] == Dec(|text|)[0];
  }

  // ---- the whole answer ---------------------------------------------------------------------------------------------

  /** Commands that are answered at once with a plain reply. */
  ghost predicate AnswersPlainly(p: Payload) {
    p != [] && !IsAck(p) && ((KindOf(NameOf(p)) == Some(Simple) && !AsksToBlock(p)) || NameOf(p) == "ping")
  }

  /** Sent plainly, one after the other, the commands get these replies. */
  ghost predicate GetReplies(env: Env, d: Desk, ps: seq<Payload>, forms: seq<Form>)
    decreases ps
  {
    if ps == [] then forms == []
    else
      var r := Dispatch(env, FRESH, d, ps[0]);
      && AnswersPlainly(ps[0]) && forms != []
      && r.reply == Some(Rendered(forms[0])) && Tidy(forms[0]) && GetReplies(env, r.desk, ps[1..], forms[1..])
  }

  function AllShown(forms: seq<Form>): string { if forms == [] then "" else Shown(forms[0]) + AllShown(forms[1..]) }

  lemma PlainIsExecOne(env: Env, d: Desk, e: Desk, p: Payload)
    requires AnswersPlainly(p) && SameButLog(d, e)
    ensures var r := Dispatch(env, FRESH, d, p);
            r.reply.Some? && ExecOne(env, e, p).items == ItemsOf(r.reply.value) && SameButLog(r.desk, ExecOne(env, e, p).desk)
  {
    hide RunSimple, Lower, IsAck, ItemsOf, AsksToBlock;
    RunningIgnoresLog(env, d, e, NameOf(p), ArgsOf(p));
  }

  lemma {:induction false} FormatItemsAppend(a: seq<Item>, b: seq<Item>)
    ensures FormatItems(a + b) == FormatItems(a) + FormatItems(b)
    decreases a
  {
    hide FormatItem;
    if a == [] {
      assert a + b == b;
    } else {
      FormatItemsAppend(a[1..], b);
      assert (a + b)[1..] == a[1..] + b;
    }
  }

  lemma {:induction false} QueueIsShown(env: Env, d: Desk, e: Desk, ps: seq<Payload>, forms: seq<Form>)
    requires GetReplies(env, d, ps, forms) && SameButLog(d, e)
    ensures |ExecQueue(env, e, ps).items| == |ps| == |forms| && FormatItems(ExecQueue(env, e, ps).items) == AllShown(forms)
    decreases ps
  {
    hide Dispatch, ExecOne, ItemsOf, FormatItems, AnswersPlainly, Shown, Rendered, Tidy;
    if ps == [] {
      NothingShown();
    } else {
      var r := Dispatch(env, FRESH, d, ps[0]);
      PlainIsExecOne(env, d, e, ps[0]);
      OneShown(forms[0]);
      var one := ExecOne(env, e, ps[0]);
      QueueIsShown(env, r.desk, one.desk, ps[1..], forms[1..]);
      FormatItemsAppend(one.items, ExecQueue(env, one.desk, ps[1..]).items);
    }
  }

  lemma NothingShown()
    ensures FormatItems([]) == ""
  {
  }

  /** EXEC answers an array with one element for each queued command: what the command would have answered plainly,
      with a status as a bulk string and no reply as nil. */
  lemma ExecAnswersPlainReplies(env: Env, c: Conn, d: Desk, forms: seq<Form>)
    requires c.inTransaction && !c.transactionFailed && c.channels == {} && GetReplies(env, d, c.queue, forms)
    ensures Dispatch(env, c, d, ["EXEC"]).reply == Some("*" + Dec(|c.queue|) + "\r\n" + AllShown(forms))
  {
    hide Dispatch, ExecQueue, FormatItems, AllShown, GetReplies, Dec;
    DispatchExec(env, c, d);
    QueueIsShown(env, d, d, c.queue, forms);
  }

  // ---- a queued BLPOP -----------------------------------------------------------------------------------------------

  lemma OneQueued(env: Env, c: Conn, d: Desk, p: Payload)
    requires c.inTransaction && !c.transactionFailed && c.channels == {} && c.queue == [p]
    ensures var r, ran := Dispatch(env, c, d, ["EXEC"]), ExecOne(env, d, p);
            && r.desk == ran.desk && r.effect == Nothing
            && (ran.items == [] ==> r.reply == Some("*0\r\n"))
            && (|ran.items| == 1 ==> r.reply == Some("*1\r\n" + FormatItem(ran.items[0])))
  {
    hide Dispatch, Dec, ExecOne, FormatItem;
    DispatchExec(env, c, d);
    OneDigit();
    var ran := ExecOne(env, d, p);
    assert c.queue[0] == p && c.queue[1..] == [] && ExecQueue(env, ran.desk, []) == Ran(ran.desk, []);
    assert ran.items + [] == ran.items;
    assert Resp.Header('*', 1) + CRLF == "*1\r\n" && Resp.Header('*', 0) + CRLF == "*0\r\n" && "*0\r\n" + "" == "*0\r\n";
    if |ran.items| == 1 { OneItem(ran.items[0]); }
  }

  lemma PairsAreNotShown(key: string, item: string)
    ensures ItemsOf(Resp.ToRESP([key, item])) == [] && ItemsOf(NIL) == [Null]
  {
    hide Resp.Bulks, Dec;
    assert "$-1" <= NIL;
    assert Resp.ToRESP([key, item])[0] == '*';
  }

  lemma ExecBlpop(env: Env, d: Desk, keys: seq<string>, timeout: nat)
    requires keys != []
    ensures var (e, found) := PopAny(d, keys);
            ExecOne(env, d, ["BLPOP"] + keys + [Dec(timeout)]) == Ran(e, if found.Some? then [] else [Null])
  {
    hide Dec, ParseInt, PopAny, RunSimple, ItemsOf, Resp.ToRESP, NIL, Error, ArgumentError;
    var p, args := ["BLPOP"] + keys + [Dec(timeout)], keys + [Dec(timeout)];
    assert Lower("BLPOP") == "blpop" && p[0] == "BLPOP" && |Lower(p[0])| == 5;
    assert p[1..] == args && args[..|args| - 1] == keys;
    ParseDec(timeout);
    var (e, found) := PopAny(d, keys);
    if found.Some? { PairsAreNotShown(found.value.0, found.value.1); } else { PairsAreNotShown("", ""); }
  }

  /** In a transaction BLPOP pops the head of the first listed list that is not empty and propagates it, but its array
      reply gets no element; if there is nothing to pop its element is nil. */
  lemma QueuedBlpopIsNotAnswered(env: Env, c: Conn, d: Desk, keys: seq<string>, timeout: nat, i: nat)
    requires c.inTransaction && !c.transactionFailed && c.channels == {} && c.queue == [["BLPOP"] + keys + [Dec(timeout)]]
    requires keys != [] && i <= |keys| && forall j :: 0 <= j < i ==> ListAt(d.store, keys[j]) == []
    requires i < |keys| ==> ListAt(d.store, keys[i]) != [] && ListAt(d.store, keys[i])[0] != ""
    ensures var r := Dispatch(env, c, d, ["EXEC"]);
            if i == |keys| then r.desk == d && r.reply == Some("*1\r\n" + "$-1\r\n")
            else
              && r.reply == Some("*0\r\n") && r.desk.store == Commands.LPop(d.store, [keys[i]]).store
              && r.desk.propagated == d.propagated + [["LPOP", keys[i]]]
  {
    hide Dispatch, Dec, ExecOne, PopAny, ListAt, UpdateStore, HoldsOther, BulkReply;
    OneQueued(env, c, d, c.queue[0]);
    ExecBlpop(env, d, keys, timeout);
    if i == |keys| {
      NothingIsPopped(d, keys);
    } else {
      FirstListIsPopped(d, keys, i);
      ListIsNoOtherType(d.store, keys[i]);
    }
  }

  // ---- commands that EXEC does not support --------------------------------------------------------------------------

  const NO_REPLICATION := "-ERR " + "Command type 'replication' not supported inside EXEC."
  const NO_ORCHESTRATION := "-ERR " + "Command type 'orchestration' not supported inside EXEC."

  lemma Unsupported(env: Env, d: Desk, p: Payload)
    ensures NameOf(p) in {"psync", "subscribe", "unsubscribe"} ==> ExecOne(env, d, p) == Ran(d, [Line(NO_REPLICATION)])
    ensures NameOf(p) == "wait" ==> ExecOne(env, d, p) == Ran(d, [Line(NO_ORCHESTRATION)])
  {
    hide NameOf, RunSimple, ExecStateful, ItemsOf;
  }

  /** Commands that EXEC does not support are answered with a line of their own, and do nothing. */
  lemma UnsupportedAreLines(env: Env, c: Conn, d: Desk, p: Payload)
    requires c.inTransaction && !c.transactionFailed && c.channels == {} && c.queue == [p]
    requires NameOf(p) in {"psync", "subscribe", "unsubscribe", "wait"}
    ensures var r := Dispatch(env, c, d, ["EXEC"]);
            && r.desk == d
            && r.reply == Some("*1\r\n" + (if NameOf(p) == "wait" then NO_ORCHESTRATION else NO_REPLICATION) + "\r\n")
  {
    hide Dispatch, NameOf, ExecOne, FormatItem, NO_REPLICATION, NO_ORCHESTRATION;
    OneQueued(env, c, d, p);
    Unsupported(env, d, p);
    ErrorLines();
    var line := if NameOf(p) == "wait" then NO_ORCHESTRATION else NO_REPLICATION;
    assert "*1\r\n" + (line + "\r\n") == "*1\r\n" + line + "\r\n";
  }

  lemma ErrorLines()
    ensures FormatItem(Line(NO_REPLICATION)) == NO_REPLICATION + "\r\n"
    ensures FormatItem(Line(NO_ORCHESTRATION)) == NO_ORCHESTRATION + "\r\n"
  {
    assert NO_REPLICATION[0] == '-' && NO_ORCHESTRATION[0] == '-';
  }

  // ---- where a text is not answered as it is -----------------------------------------------------------------------

  lemma {:induction false} FirstLine(text: string)
    ensures Resp.SplitLines(text)[0] <= text && (Resp.SplitLines(text)[0] == text <==> OneLine(text))
  {
  }

  lemma SizedTellsLength(a: string, b: string)
    requires Sized(a) == Sized(b)
    ensures |a| == |b|
  {
    hide Dec;
    SizeIsOneLine(|a|);
    SizeIsOneLine(|b|);
    var s := Sized(a);
    assert At(s, 0, ("$" + Dec(|a|)) + CRLF);
    assert At(s, 0, ("$" + Dec(|b|)) + CRLF);
    LineEnd(s, 0, "$" + Dec(|a|));
    LineEnd(s, 0, "$" + Dec(|b|));
    assert Dec(|a|) == s[1..1 + |Dec(|a|)|] == s[1..1 + |Dec(|b|)|] == Dec(|b|);
    ValueOfDec(|a|);
    ValueOfDec(|b|);
  }

  /** Exactly which texts EXEC answers unchanged: those of one line that do not end with a blank and do not start with
      a minus sign. */
  lemma ContentShownExactly(env: Env, c: Conn, d: Desk, p: Payload, text: string)
    requires c.inTransaction && !c.transactionFailed && c.channels == {} && c.queue == [p] && AnswersPlainly(p)
    requires text != "" && Dispatch(env, FRESH, d, p).reply == Some(Rendered(Content(text)))
    ensures Dispatch(env, c, d, ["EXEC"]).reply == Some("*1\r\n" + Rendered(Content(text)))
            <==> OneLine(text) && !EndsBlank(text) && text[0] != '-'
  {
    hide Dispatch, FormatItems, Dec, ItemsOf, AnswersPlainly, ExecOne, Sized;
    DispatchExec(env, c, d);
    PlainIsExecOne(env, d, d, p);
    var items := ExecQueue(env, d, c.queue).items;
    assert c.queue[0] == p && c.queue[1..] == [] && ExecQueue(env, ExecOne(env, d, p).desk, []).items == [];
    assert items == ItemsOf(Sized(text)) + [] == ItemsOf(Sized(text));
    ContentIsShownExactly(text);
    assert Dec(1) == "1" by { OneDigit(); }
    var answer, wanted := "*1\r\n" + FormatItems(items), "*1\r\n" + Sized(text);
    assert Resp.Header('*', 1) + CRLF == "*1\r\n";
    assert Dispatch(env, c, d, ["EXEC"]).reply == Some(answer);
    assert answer[4..] == FormatItems(items) && wanted[4..] == Sized(text);
  }

  lemma OneDigit()
    ensures Dec(0) == "0" && Dec(1) == "1"
  {
  }

  lemma ContentIsShownExactly(text: string)
    requires text != ""
    ensures |ItemsOf(Sized(text))| == 1
    ensures FormatItems(ItemsOf(Sized(text))) == Sized(text) <==> OneLine(text) && !EndsBlank(text) && text[0] != '-'
  {
    hide Trim, TrimEnd, Dec, Resp.SplitLines, Sized, FormatItems;
    NotMissing(text);
    TrimEndIsPrefix(text);
    if TrimEnd(text) == "" {
      AllBlank(text);
      OneItem(Null);
      NilIsMissing();
    } else {
      ContentLines(text);
      FirstLine(TrimEnd(text));
      var shown := Resp.SplitLines(TrimEnd(text))[0];
      assert Resp.SplitLines(Trim(Sized(text)))[1] == shown;
      assert ItemsOf(Sized(text)) == [Line(shown)];
      OneItem(Line(shown));
      if shown == "" {
        NilIsMissing();
        assert !OneLine(text) by { PrefixLines(text, TrimEnd(text)); }
      } else if shown[0] == '-' {
        assert (shown + CRLF)[0] == '-';
        assert text[0] == '-';
      } else {
        SizedIsBulk(shown);
        if Sized(shown) == Sized(text) { SizedTellsLength(shown, text); }
        if OneLine(text) { PrefixLines(text, TrimEnd(text)); }
      }
    }
  }

  lemma PrefixLines(text: string, front: string)
    requires front <= text
    ensures OneLine(text) ==> OneLine(front)
  {
    if OneLine(text) { forall i ensures !CrlfAt(front, i) { assert !CrlfAt(text, i); } }
  }

  lemma NilIsMissing()
    ensures FormatItem(Null) == "$-1\r\n" && FormatItem(Line("")) == "$-1\r\n" && "$-1" <= "$-1\r\n"
  {
  }

  /** The reply of a text of blanks is trimmed to its size. */
  lemma AllBlank(text: string)
    requires text != "" && TrimEnd(text) == ""
    ensures ItemsOf(Sized(text)) == [Null] && EndsBlank(text)
  {
    hide Dec;
    NotMissing(text);
    TrimEndIsPrefix(text);
    BlanksAreBlank(text);
    var size := "$" + Dec(|text|);
    var raw := Sized(text);
    assert raw == size + (("\r\n" + text) + "\r\n") && SpaceEnd(raw, 0) == 0 && raw[0..] == raw;
    TrimEndDropsBlanks(size, ("\r\n" + text) + "\r\n");
    assert !EndsBlank(size) by { assert IsDigit(Dec(|text|)[|Dec(|text|)| - 1]); }
    TrimEndIsPrefix(size);
    SizeIsOneLine(|text|);
    LinesOfOne(size);
  }

  lemma {:induction false} BlanksAreBlank(text: string)
    requires TrimEnd(text) == ""
    ensures forall i :: 0 <= i < |text| ==> IsSpace(text[i])
    decreases |text|
  {
    if text != "" && IsSpace(text[|text| - 1]) { BlanksAreBlank(text[..|text| - 1]); }
  }
}
