/** What a client can rely on, over every sequence of input lines. */
module AdapterTheorems {
  import opened Text
  import opened Json
  import opened ParserSpec
  import opened ParseTheorems
  import opened Decimal
  import opened Escape
  import opened Extract
  import opened ExtractSearch
  import opened CallParams
  import opened B = JsonBuilderModule
  import opened Replies
  import opened McpAdapter

  /** Lines that are due an answer: what is no message, and every request that has an id. */
  predicate DueAnswer(line: string) {
    line != "" && (MessageOf(line).None? || (MessageOf(line).value.isRequest && MessageOf(line).value.id.Some?))
  }

  function CountDue(lines: seq<string>): nat {
    if lines == [] then 0
    else CountDue(lines[..|lines| - 1]) + (if DueAnswer(lines[|lines| - 1]) then 1 else 0)
  }

  /** The id a reply must carry. */
  function DueId(line: string): Option<int> {
    match MessageOf(line)
    case None => None
    case Some(m) => m.id
  }

  lemma {:induction false} OneReplyPerDueLine(server: Server, lines: seq<string>)
    ensures |Replied(server, lines)| == CountDue(lines)
    decreases |lines|
  {
    hide AnswerRequest, Print, ErrorTree, MessageOf;
    if lines != [] {
      OneReplyPerDueLine(server, lines[..|lines| - 1]);
    }
  }

  lemma {:induction false} RepliesGrow(server: Server, lines: seq<string>, i: nat)
    requires i <= |lines|
    ensures Replied(server, lines[..i]) <= Replied(server, lines)
    decreases |lines| - i
  {
    hide AnswerRequest, Print, ErrorTree, MessageOf;
    if i < |lines| {
      RepliesGrow(server, lines, i + 1);
      assert lines[..i + 1][..i] == lines[..i];
    } else {
      assert lines[..i] == lines;
    }
  }

  /** The member of a reply that is not the version and not the id. */
  function AnswerName(answer: Answer): string {
    if answer.ErrorAnswer? then "error" else "result"
  }

  function AnswerValue(answer: Answer): Json {
    match answer
    case ErrorAnswer(code, message) => ErrorValue(code, message)
    case InitializeAnswer(protocol, name, version) => InitializeResult(protocol, name, version)
    case ListAnswer(tools) => ListResult(tools)
    case CallAnswer(result) => CallResult(result)
  }

  function AnswerMember(answer: Answer): Item {
    Named(AnswerName(answer), AnswerValue(answer))
  }

  lemma AnswerHasId(id: Option<int>, answer: Answer)
    ensures AnswerTree(id, answer) == ReplyTree(id, AnswerMember(answer))
  {
  }

  /** What a line that is due an answer is answered with. */
  function DueAnswerOf(server: Server, turn: nat, line: string): Answer
    requires DueAnswer(line)
  {
    match MessageOf(line)
    case None => ErrorAnswer(-32700, "Parse error")
    case Some(m) => AnswerRequest(server, turn, Stripped(line), m)
  }

  /**
    Exactly once and in order: a line that is due an answer is answered, after the answers to the
    lines before it, by its own reply, which carries its id; other lines add nothing.
   */
  lemma ExactlyOnce(server: Server, lines: seq<string>, i: nat)
    requires i < |lines|
    ensures |Replied(server, lines)| == CountDue(lines)
    ensures DueAnswer(lines[i]) ==>
              var k := CountDue(lines[..i]);
              && k < |Replied(server, lines)|
              && Replied(server, lines)[k] ==
                 Print(ReplyTree(DueId(lines[i]), AnswerMember(DueAnswerOf(server, i, lines[i]))))
    ensures !DueAnswer(lines[i]) ==> Replied(server, lines[..i + 1]) == Replied(server, lines[..i])
  {
    hide AnswerRequest, Print, ErrorTree, MessageOf, AnswerTree, AnswerMember;
    OneReplyPerDueLine(server, lines);
    OneReplyPerDueLine(server, lines[..i]);
    RepliedStep(server, lines, i);
    RepliesGrow(server, lines, i + 1);
    if DueAnswer(lines[i]) {
      ReplyIsAnswer(server, i, lines[i]);
      AnswerHasId(DueId(lines[i]), DueAnswerOf(server, i, lines[i]));
    }
  }

  lemma ReplyIsAnswer(server: Server, turn: nat, line: string)
    requires DueAnswer(line)
    ensures ReplyTo(server, turn, line) == Some(AnswerTree(DueId(line), DueAnswerOf(server, turn, line)))
  {
    hide AnswerRequest, MessageOf, ErrorTree;
  }

  // ------------------------------------------------------------- one line per reply

  lemma AnswerWithout(id: Option<int>, answer: Answer, c: char)
    requires Breaking(c) && (answer.ListAnswer? ==> ToolsError(answer.tools).None?)
    ensures c !in Print(AnswerTree(id, answer))
  {
    hide Print, Without;
    match answer {
      case ErrorAnswer(code, message) => ErrorWithout(id, code, message, c);
      case InitializeAnswer(protocol, name, version) => InitializeWithout(id, protocol, name, version, c);
      case ListAnswer(tools) =>
        NamesAreClean(tools);
        ListWithout(id, tools, c);
      case CallAnswer(result) => CallWithout(id, result, c);
    }
    PrintWithout(AnswerTree(id, answer), c);
  }

  /** No reply holds a line break: the client reads one line for every reply. */
  lemma {:induction false} RepliesAreSingleLines(server: Server, lines: seq<string>)
    ensures forall reply | reply in Replied(server, lines) :: '\n' !in reply
    decreases |lines|
  {
    hide AnswerRequest, Print, MessageOf, AnswerTree;
    if lines != [] {
      var last := lines[|lines| - 1];
      RepliesAreSingleLines(server, lines[..|lines| - 1]);
      if DueAnswer(last) {
        ReplyIsAnswer(server, |lines| - 1, last);
        AnswerWithout(DueId(last), DueAnswerOf(server, |lines| - 1, last), '\n');
      }
    }
  }

  // ----------------------------------------------------------- replies are responses

  /**
    Parameter names are the one text the adapter writes unescaped. In a list of tools each must end,
    for the scanners, where its closing quote stands.
   */
  predicate ClosedNames(answer: Answer) {
    answer.ListAnswer? ==> forall t | t in answer.tools :: forall p | p in t.params :: ClosedBody(CStr(p.name))
  }

  lemma AnswerIsAcceptable(answer: Answer)
    requires ClosedNames(answer)
    requires answer.ErrorAnswer? ==> Fits(answer.code)
    ensures var v := AnswerValue(answer);
            Scannable(v) && Acceptable(if answer.ErrorAnswer? then Error else Result, v)
  {
    hide Scannable, WellFormed, ClosedBody;
    match answer
    case ErrorAnswer(code, message) => ErrorMembers(code, message);
    case InitializeAnswer(protocol, name, version) =>
      InitializeResultIsJson(protocol, name, version);
      WellFormedIsScannable(InitializeResult(protocol, name, version));
    case ListAnswer(tools) => ListGood(tools, false);
    case CallAnswer(result) =>
      CallResultIsJson(result);
      WellFormedIsScannable(CallResult(result));
  }

  lemma AnswerParses(id: int, answer: Answer, maxBytes: nat)
    requires Fits(id) && ClosedNames(answer)
    requires answer.ErrorAnswer? ==> Fits(answer.code)
    ensures var s := Print(AnswerTree(Some(id), answer));
            var r := ParseMessage(s, maxBytes);
            && (r.Some? <==> |s| <= maxBytes)
            && (r.Some? ==>
                  && r.value.valid && r.value.id == Some(id) && r.value.isResponse && !r.value.isRequest
                  && (r.value.hasError <==> answer.ErrorAnswer?) && (r.value.hasResult <==> !answer.ErrorAnswer?))
  {
    hide Print, ParseMessage, Scannable, Acceptable, RoleOf, AnswerTree, AnswerValue, ClosedNames, Only, IntJson,
      IntegerOf;
    AnswerHasId(Some(id), answer);
    AnswerIsAcceptable(answer);
    ResultRole();
    ErrorRole();
    ReplyParses(id, AnswerName(answer), AnswerValue(answer), maxBytes);
    OnlyAnswers(answer);
    IntTextRoundTrip(id);
  }

  lemma ErrorRole()
    ensures RoleOf(Message, "error") == Error && PlainKey("error")
  {
  }

  lemma OnlyAnswers(answer: Answer)
    requires Scannable(AnswerValue(answer))
    ensures var last := Only(if answer.ErrorAnswer? then Error else Result, AnswerValue(answer));
            && last.methodName == None && last.id == None
            && (last.error.Some? <==> answer.ErrorAnswer?) && (last.result.Some? <==> !answer.ErrorAnswer?)
  {
    hide Scannable, LastMembers, Only, ErrorValue, InitializeResult, CallResult, ListResult, Acceptable, IntJson,
      TextValue;
    if answer.ErrorAnswer? {
      ErrorMembers(answer.code, answer.message);
    } else {
      OnlyResult(AnswerValue(answer));
    }
  }

  lemma OnlyResult(v: Json)
    requires Scannable(v)
    ensures Only(Result, v) == NO_MEMBER.(result := Some(v))
  {
  }

  /**
    Closure: the reply to a request, fed back to the parser, is a valid response with the id of the
    request, exactly when the size limit admits it. Only a list of tools asks something of its names.
   */
  lemma RepliesAreResponses(server: Server, turn: nat, line: string, maxBytes: nat)
    requires DueAnswer(line) && MessageOf(line).Some? && ClosedNames(DueAnswerOf(server, turn, line))
    ensures var s := Print(ReplyTo(server, turn, line).value);
            var r := ParseMessage(s, maxBytes);
            && (r.Some? <==> |s| <= maxBytes)
            && (r.Some? ==>
                  r.value.valid && r.value.isResponse && !r.value.isRequest && r.value.id == MessageOf(line).value.id)
  {
    hide Print, ParseMessage, AnswerTree, ClosedNames;
    ReplyIsAnswer(server, turn, line);
    AnswerParses(DueId(line).value, DueAnswerOf(server, turn, line), maxBytes);
  }

  // -------------------------------------------------------------------- who is asking

  /**
    With authentication on, the token is that of the top-level member of the parameters, whatever else
    they hold, unless a member in front of it has a string under its key at any depth.
   */
  lemma TokenIsTopLevel(line: string, m: MCPMessage, gap: string, before: Items, item: Item, after: Items)
    requires GoodMessage(line, m) && Scannable(ObjectWith(gap, before, item, after))
    requires Holds(line, m.params, Print(ObjectWith(gap, before, item, after)))
    requires item.key.Key? && item.key.name == AUTH_TOKEN && item.value.String? && !ItemsHold(before, AUTH_TOKEN)
    ensures AuthToken(line, m) == item.value.body
  {
    var t := Print(ObjectWith(gap, before, item, after));
    hide Print, PrintKey, Scannable, ExtractedString, ItemsHold, ObjectWith, ValueOffset, GoodMessage, KeyWord;
    KeyWords();
    StringMemberFoundIff(gap, before, item, after, AUTH_TOKEN);
    BodyAtOffset(gap, before, item, after);
  }
}
