/** One iteration of the bot's main loop, and the loop itself as a fold
    over the sequence of answers the API gives (`main`). */
module Poll {
  import opened Results
  import opened Text
  import opened Json
  import opened Tokens
  import opened Response
  import opened Statuses
  import opened Alerts

  // ---------------------------------------------------------------------
  // Fetching

  /** What the HTTP request for homework statuses produced. The request
      itself, its cursor and its headers are outside the model. */
  datatype Reply =
    | Unreachable                          // `requests` raised
    | Answered(code: int, body: Json)      // a reply whose body decodes
    | Undecodable(code: int, detail: string) // a reply whose body is not JSON

  /** `get_api_answer` on a given reply: a transport error is re-raised as
      a bare `Exception` (whose text is empty), a code other than 200 raises
      with the code in the text, and otherwise the decoded body is returned
      (decoding failure raises with the decoder's own text). */
  function GetApiAnswer(reply: Reply): (r: Result<Json, Fault>)
    ensures r.Ok? <==> reply.Answered? && reply.code == 200
    ensures r.Ok? ==> r.value == reply.body
    ensures r.Err? ==> r.error.Raised?
    ensures reply.Unreachable? ==> r == Err(Raised(""))
    ensures !reply.Unreachable? && reply.code != 200 ==>
              r == Err(Raised("Не получен ответ от сервера. Код ответа: " + IntText(reply.code) + ". "))
  {
    match reply
    case Unreachable => Err(Raised(""))
    case Answered(code, body) =>
      if code != 200 then Err(Raised(StatusCodeText(code))) else Ok(body)
    case Undecodable(code, detail) =>
      if code != 200 then Err(Raised(StatusCodeText(code))) else Err(Raised(detail))
  }

  function StatusCodeText(code: int): string {
    "Не получен ответ от сервера. Код ответа: " + IntText(code) + ". "
  }

  /** The failure text the loop passes to `process_exception`: a fixed
      text for a `TypeError`, the exception's own text otherwise. */
  function ErrorMessage(f: Fault): (r: string)
    ensures f.TypeError? <==> r == MalformedText
    ensures f.Raised? ==>
              && FailureHead <= r
              && |r| == |FailureHead| + |f.text| + 1
              && r[|FailureHead|..|r| - 1] == f.text
              && r[|r| - 1] == ' '
  {
    match f
    case TypeError => MalformedText
    case Raised(text) =>
      var r := FailureHead + (text + " ");
      assert r[0] != MalformedText[0];
      r
  }

  const FailureHead := "Сбой в работе программы: "

  const MalformedText := "Получен некорректный ответ от сервера. "

  // ---------------------------------------------------------------------
  // Dispatching the homeworks of one answer

  /** What the `for homework in homeworks` loop leaves behind: the
      messages it sent, the store, and the exception that stopped it. */
  datatype Dispatched = Dispatched(sent: seq<string>, store: Store, fault: Option<Fault>)

  /** `if message:` — only a non-empty message is sent. */
  function Emitted(message: string): seq<string> {
    if message == "" then [] else [message]
  }

  function Prepend(sent: seq<string>, d: Dispatched): Dispatched {
    d.(sent := sent + d.sent)
  }

  /** One record of the loop: its message if any, the store after it, or
      the exception it raised. */
  function Step(record: Json, store: Store): (r: Dispatched)
    ensures |r.sent| <= 1
    ensures forall i :: 0 <= i < |r.sent| ==> DecodeNotice(r.sent[i]).Some?
    ensures Extends(store, r.store)
    ensures r.fault.Some? ==> r.sent == [] && r.store == store
  {
    match ParseStatus(record, store)
    case Err(f) => Dispatched([], store, Some(f))
    case Ok(p) => Dispatched(Emitted(p.message), p.store, None)
  }

  /** The records in order, each interpreted against the store the previous
      ones left, sending every non-empty message, until one raises. */
  function DispatchAll(homeworks: seq<Json>, store: Store): (r: Dispatched)
    ensures |r.sent| <= |homeworks|
    ensures forall i :: 0 <= i < |r.sent| ==> DecodeNotice(r.sent[i]).Some?
    ensures Extends(store, r.store)
    decreases |homeworks|
  {
    if |homeworks| == 0 then Dispatched([], store, None)
    else
      var first := Step(homeworks[0], store);
      if first.fault.Some? then first
      else Prepend(first.sent, DispatchAll(homeworks[1..], first.store))
  }

  lemma SplitAt(h: seq<Json>, i: nat)
    requires i < |h|
    ensures h == h[..i] + h[i..]
    ensures h[i..][0] == h[i] && h[i..][1..] == h[i + 1..]
  {
  }

  /** Unfolds the dispatch of a suffix by one record. */
  lemma DispatchFrom(h: seq<Json>, i: nat, store: Store)
    requires i < |h|
    ensures DispatchAll(h[i..], store) ==
              var first := Step(h[i], store);
              if first.fault.Some? then first
              else Prepend(first.sent, DispatchAll(h[i + 1..], first.store))
  {
  }

  lemma PrependTwice(x: seq<string>, y: seq<string>, d: Dispatched)
    ensures Prepend(x, Prepend(y, d)) == Prepend(x + y, d)
  {
  }

  /** Dispatching a concatenation is dispatching the first part and, unless
      it stopped on an exception, continuing with the rest from its store. */
  lemma {:induction false} DispatchSplit(a: seq<Json>, b: seq<Json>, store: Store)
    ensures DispatchAll(a + b, store) ==
              var first := DispatchAll(a, store);
              if first.fault.Some? then first else Prepend(first.sent, DispatchAll(b, first.store))
    decreases |a|
  {
    if |a| == 0 {
      assert a + b == b;
    } else {
      assert (a + b)[0] == a[0];
      assert (a + b)[1..] == a[1..] + b;
      var first := Step(a[0], store);
      assert DispatchAll(a + b, store) ==
               if first.fault.Some? then first
               else Prepend(first.sent, DispatchAll(a[1..] + b, first.store));
      if first.fault.None? {
        var rest := DispatchAll(a[1..], first.store);
        assert DispatchAll(a, store) == Prepend(first.sent, rest);
        DispatchSplit(a[1..], b, first.store);
        if rest.fault.None? {
          var tail := DispatchAll(b, rest.store);
          PrependTwice(first.sent, rest.sent, tail);
        }
      }
    }
  }

  /** When record `i` is the first to raise, the cycle stops there with that
      exception, and the messages sent and store entries made for the
      records before it are kept. */
  lemma DispatchStopsAt(homeworks: seq<Json>, store: Store, i: nat)
    requires i < |homeworks|
    ensures var before := DispatchAll(homeworks[..i], store);
            before.fault.None? && ParseStatus(homeworks[i], before.store).Err? ==>
              DispatchAll(homeworks, store) ==
                Dispatched(before.sent, before.store,
                           Some(ParseStatus(homeworks[i], before.store).error))
  {
    SplitAt(homeworks, i);
    DispatchSplit(homeworks[..i], homeworks[i..], store);
  }

  /** One turn of the index loop keeps it in step with DispatchAll. */
  lemma DispatchAdvance(h: seq<Json>, store: Store, i: nat, sent: seq<string>, current: Store)
    requires i < |h|
    ensures var step := Step(h[i], current);
            DispatchAll(h, store) == Prepend(sent, DispatchAll(h[i..], current)) ==>
              if step.fault.Some? then DispatchAll(h, store) == Dispatched(sent, current, step.fault)
              else DispatchAll(h, store) == Prepend(sent + step.sent, DispatchAll(h[i + 1..], step.store))
  {
    DispatchFrom(h, i, current);
    var step := Step(h[i], current);
    if step.fault.None? {
      PrependTwice(sent, step.sent, DispatchAll(h[i + 1..], step.store));
    }
  }

  /** The same loop written as the source writes it, over an index. */
  method Dispatch(homeworks: seq<Json>, store: Store)
    returns (sent: seq<string>, store': Store, fault: Option<Fault>)
    ensures Dispatched(sent, store', fault) == DispatchAll(homeworks, store)
  {
    sent, store', fault := [], store, None;
    var i := 0;
    while i < |homeworks|
      invariant 0 <= i <= |homeworks|
      invariant DispatchAll(homeworks, store) == Prepend(sent, DispatchAll(homeworks[i..], store'))
    {
      var step := Step(homeworks[i], store');
      DispatchAdvance(homeworks, store, i, sent, store');
      if step.fault.Some? {
        fault := step.fault;
        return;
      }
      sent := sent + step.sent;
      store' := step.store;
      i := i + 1;
    }
  }

  // ---------------------------------------------------------------------
  // One poll cycle

  /** The bot's state between polls. */
  datatype Bot = Bot(statuses: Store, chan: Channel)

  /** The `except` clauses: the failure goes through `process_exception`. */
  function Report(f: Fault, bot: Bot): (r: Bot)
    ensures r.statuses == bot.statuses
    ensures Alert(ErrorMessage(f)) in r.chan.alerted
    ensures bot.chan.alerted <= r.chan.alerted <= bot.chan.alerted + {Alert(ErrorMessage(f))}
    ensures Alert(ErrorMessage(f)) !in bot.chan.alerted ==>
              r.chan.outbox == bot.chan.outbox + [Alert(ErrorMessage(f))]
    ensures Alert(ErrorMessage(f)) in bot.chan.alerted ==> r == bot
  {
    bot.(chan := ProcessException(ErrorMessage(f), bot.chan))
  }

  /** One pass of the `while True` body on a given reply. */
  function Cycle(reply: Reply, bot: Bot): (r: Bot)
    ensures Extends(bot.statuses, r.statuses)
    ensures bot.chan.alerted <= r.chan.alerted
    ensures bot.chan.outbox <= r.chan.outbox
    ensures GetApiAnswer(reply).Err? ==> r == Report(GetApiAnswer(reply).error, bot)
    ensures GetApiAnswer(reply).Ok? && CheckResponse(GetApiAnswer(reply).value).Err? ==>
              r.statuses == bot.statuses
              && r.chan == ProcessException(MalformedText, bot.chan)
    ensures GetApiAnswer(reply).Ok? && CheckResponse(GetApiAnswer(reply).value).Ok? ==>
              var d := DispatchAll(CheckResponse(GetApiAnswer(reply).value).value, bot.statuses);
              && r.statuses == d.store
              && bot.chan.outbox + d.sent <= r.chan.outbox
              && (d.fault.None? ==> r.chan == bot.chan.(outbox := bot.chan.outbox + d.sent))
              && (d.fault.Some? ==>
                    r.chan == ProcessException(ErrorMessage(d.fault.value),
                                               bot.chan.(outbox := bot.chan.outbox + d.sent)))
  {
    match GetApiAnswer(reply)
    case Err(f) => Report(f, bot)
    case Ok(answer) =>
      match CheckResponse(answer)
      case Err(f) => Report(f, bot)
      case Ok(homeworks) =>
        var d := DispatchAll(homeworks, bot.statuses);
        var after := Bot(d.store, bot.chan.(outbox := bot.chan.outbox + d.sent));
        assert bot.chan.outbox <= after.chan.outbox;
        if d.fault.Some? then
          var r := Report(d.fault.value, after);
          assert after.chan.outbox <= r.chan.outbox;
          r
        else after
  }

  /** A status-change notice never looks like an alert. */
  lemma NoticeIsNotAlert(m: string)
    ensures DecodeNotice(m).Some? ==> !IsAlert(m)
  {
    if DecodeNotice(m).Some? {
      var st := DecodeNotice(m).value.1;
      assert EndsWith(m, Tail(st));
      TailLastTwo(st);
      EndsWithLastTwo(m, Tail(st));
      if IsAlert(m) {
        RetrySuffixLastTwo();
        EndsWithLastTwo(m, RetrySuffix);
        assert false;
      }
    }
  }

  /** Across a cycle the chat still receives each alert text at most once. */
  lemma CycleKeepsAlertsOnce(reply: Reply, bot: Bot)
    requires AlertsOnce(bot.chan)
    ensures AlertsOnce(Cycle(reply, bot).chan)
  {
    match GetApiAnswer(reply)
    case Err(f) =>
      ProcessExceptionKeepsAlertsOnce(ErrorMessage(f), bot.chan);
    case Ok(answer) =>
      match CheckResponse(answer)
      case Err(f) =>
        ProcessExceptionKeepsAlertsOnce(ErrorMessage(f), bot.chan);
      case Ok(homeworks) =>
        var d := DispatchAll(homeworks, bot.statuses);
        forall i | 0 <= i < |d.sent|
          ensures !IsAlert(d.sent[i])
        {
          NoticeIsNotAlert(d.sent[i]);
        }
        SendPlainKeepsAlertsOnce(bot.chan, d.sent);
        var sentChan := bot.chan.(outbox := bot.chan.outbox + d.sent);
        if d.fault.Some? {
          ProcessExceptionKeepsAlertsOnce(ErrorMessage(d.fault.value), sentChan);
        }
  }

  // ---------------------------------------------------------------------
  // The whole run

  /** Where a run ends up: stopped at start-up for a missing credential,
      or polling with the given state. */
  datatype Session = Halted(missing: string) | Polling(bot: Bot)

  const Start := Bot(map[], Channel({}, []))

  /** The loop over a sequence of replies, oldest first. The cursor the
      requests carry is fixed at start-up and never advanced, so the
      replies are the only input that varies. */
  function Loop(replies: seq<Reply>, bot: Bot): (r: Bot)
    ensures Extends(bot.statuses, r.statuses)
    ensures bot.chan.alerted <= r.chan.alerted
    ensures bot.chan.outbox <= r.chan.outbox
    decreases |replies|
  {
    if |replies| == 0 then bot else Loop(replies[1..], Cycle(replies[0], bot))
  }

  /** `main`: the credentials are checked before anything is fetched. */
  function Main(tokens: Tokens, replies: seq<Reply>): (r: Session)
    ensures r.Halted? <==> CheckTokens(tokens).Missing?
    ensures r.Halted? ==> r.missing == CheckTokens(tokens).token
  {
    match CheckTokens(tokens)
    case Missing(t) => Halted(t)
    case AllPresent => Polling(Loop(replies, Start))
  }

  /** Over any number of cycles the store only gains entries, the sent set
      only grows, the outbox only grows at its end, and each alert text
      reaches the chat at most once. */
  lemma {:induction false} LoopInvariant(replies: seq<Reply>, bot: Bot)
    requires AlertsOnce(bot.chan)
    ensures var r := Loop(replies, bot);
            && Extends(bot.statuses, r.statuses)
            && bot.chan.alerted <= r.chan.alerted
            && bot.chan.outbox <= r.chan.outbox
            && AlertsOnce(r.chan)
    decreases |replies|
  {
    if |replies| > 0 {
      var next := Cycle(replies[0], bot);
      CycleKeepsAlertsOnce(replies[0], bot);
      LoopInvariant(replies[1..], next);
    }
  }

  /** For a whole run: no alert text appears twice in the chat. */
  lemma MainAlertsOnce(tokens: Tokens, replies: seq<Reply>)
    requires Main(tokens, replies).Polling?
    ensures var out := Main(tokens, replies).bot.chan.outbox;
            forall i, j :: 0 <= i < j < |out| && IsAlert(out[i]) ==> out[i] != out[j]
  {
    LoopInvariant(replies, Start);
  }

  // ---------------------------------------------------------------------
  // Worked examples

  function Homework(name: string, status: string): Json {
    JObj(map["homework_name" := JStr(name), "status" := JStr(status)])
  }

  function Ok200(homeworks: seq<Json>): Reply {
    Answered(200, JObj(map["homeworks" := JArr(homeworks)]))
  }

  const AllSet := Tokens(Some("p"), Some("t"), Some("c"))

  /** A cycle on an answer listing one readable homework. */
  lemma CycleOnOne(record: Json, bot: Bot)
    requires Readable(record)
    ensures var p := ParseStatus(record, bot.statuses).value;
            Cycle(Ok200([record]), bot)
              == Bot(p.store, bot.chan.(outbox := bot.chan.outbox + Emitted(p.message)))
  {
    var homeworks := [record];
    var answer := JObj(map["homeworks" := JArr(homeworks)]);
    assert GetApiAnswer(Ok200(homeworks)) == Ok(answer);
    assert CheckResponse(answer) == Ok(homeworks);
    var p := ParseStatus(record, bot.statuses).value;
    assert Step(record, bot.statuses) == Dispatched(Emitted(p.message), p.store, None);
    assert homeworks[1..] == [];
    assert DispatchAll(homeworks, bot.statuses) == Dispatched(Emitted(p.message), p.store, None);
  }

  /** The worked examples' records are readable, under the expected key. */
  lemma HomeworkReadable(name: string, st: Status)
    ensures var h := Homework(name, Spelling(st));
            Readable(h) && NameField(h) == JStr(name) && RecordKey(h) == TextKey(name)
            && RecordStatus(h) == st
  {
    assert "homework_name" != "status";
  }

  /** A first poll sees `hw1` under review: it is stored and announced. */
  lemma FirstPollAnnouncesReview()
    ensures Cycle(Ok200([Homework("hw1", "reviewing")]), Start)
            == Bot(map[TextKey("hw1") := Reviewing], Channel({}, [Notice("hw1", Reviewing)]))
  {
    HomeworkReadable("hw1", Reviewing);
    CycleOnOne(Homework("hw1", "reviewing"), Start);
  }

  lemma LoopTwo(r0: Reply, r1: Reply, bot: Bot)
    ensures Loop([r0, r1], bot) == Cycle(r1, Cycle(r0, bot))
  {
    assert [r0, r1][1..] == [r1];
    assert [r1][1..] == [];
    assert Loop([r0, r1], bot) == Loop([r1], Cycle(r0, bot));
    assert Loop([r1], Cycle(r0, bot)) == Loop([], Cycle(r1, Cycle(r0, bot)));
  }

  /** With every credential set, a run of two polls is two cycles from the
      initial state. */
  lemma MainTwo(r0: Reply, r1: Reply)
    ensures Main(AllSet, [r0, r1]) == Polling(Cycle(r1, Cycle(r0, Start)))
  {
    assert CheckTokens(AllSet) == AllPresent;
    LoopTwo(r0, r1, Start);
  }

  lemma Pair(a: string, b: string)
    ensures [a] + [b] == [a, b]
  {
  }

  /** A homework taken up for review and later approved is announced
      twice, once per state, in that order. */
  lemma ReviewThenApproved()
    ensures Main(AllSet, [Ok200([Homework("hw1", "reviewing")]), Ok200([Homework("hw1", "approved")])])
            == Polling(Bot(map[TextKey("hw1") := Reviewing],
                           Channel({}, [Notice("hw1", Reviewing), Notice("hw1", Approved)])))
  {
    var r0 := Ok200([Homework("hw1", "reviewing")]);
    var r1 := Ok200([Homework("hw1", "approved")]);
    MainTwo(r0, r1);
    FirstPollAnnouncesReview();
    var one := Bot(map[TextKey("hw1") := Reviewing], Channel({}, [Notice("hw1", Reviewing)]));
    assert Cycle(r0, Start) == one;
    ApprovedAnnouncedAgain(one);
    Pair(Notice("hw1", Reviewing), Notice("hw1", Approved));
  }

  /** The store keeps the first status it saw, so once a homework has
      changed state every later poll announces the new state again. */
  lemma ApprovedAnnouncedAgain(bot: Bot)
    requires TextKey("hw1") in bot.statuses && bot.statuses[TextKey("hw1")] == Reviewing
    ensures Cycle(Ok200([Homework("hw1", "approved")]), bot)
            == bot.(chan := bot.chan.(outbox := bot.chan.outbox + [Notice("hw1", Approved)]))
  {
    HomeworkReadable("hw1", Approved);
    CycleOnOne(Homework("hw1", "approved"), bot);
  }

  /** A `homeworks` entry that is not a list is a malformed answer: the
      fixed alert is sent once and the store is untouched. */
  lemma NotAList()
    ensures Cycle(Answered(200, JObj(map["homeworks" := JStr("not-a-list")])), Start)
            == Bot(map[], Channel({Alert(MalformedText)}, [Alert(MalformedText)]))
  {
  }
}
