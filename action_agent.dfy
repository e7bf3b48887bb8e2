/** The action agent (backend/src/agents/ActionAgent.ts): it asks the model
    which mock action to run, parses the ACTION / PARAMETERS / EXPLANATION
    lines of the reply and runs one of seven canned handlers. */
module ActionAgent {
  import opened Text
  import opened Types
  import opened Regex
  import opened BaseAgent

  const ActionMaxTokens: nat := 800

  const ClarifyText := "I'd be happy to help! Could you provide more details about what you'd like me to do?"
  const MoreInfoSuffix := "\n\nTo help you with this, I'll need some additional information. Could you please provide the necessary details?"
  const ActionApology := "I apologize, but I'm having trouble processing that action right now. Please try again or contact our support team."
  const NotRecognized := "Action type not recognized. Please contact support for assistance with this request."
  const CompletedText := "Action completed successfully."
  const UnableText := "Unable to complete the action. Please contact support."

  const DefaultOrderId := "12345"
  const DefaultTracking := "FDX1234567890"
  const DefaultEmail := "your registered email"

  /** The action names the handlers answer to. */
  const KnownActions: seq<string> := ["CHECK_ORDER_STATUS", "UPDATE_ACCOUNT", "CANCEL_ORDER",
    "REFUND_REQUEST", "RESET_PASSWORD", "UPDATE_SHIPPING", "TRACK_PACKAGE"]

  function ActionRequest(message: string, history: seq<Message>): Request {
    Request(ActionInstructions, None, FormatConversationHistory(history), message, ActionMaxTokens)
  }

  /** `replace(/\s+/g, '_')`: every maximal whitespace run becomes one `_`. */
  function CollapseSpaces(s: string): (r: string)
    ensures |r| <= |s|
    ensures forall k :: 0 <= k < |r| ==> !IsJsSpace(r[k])
    ensures forall k :: 0 <= k < |r| ==> r[k] == '_' || r[k] in s
    decreases |s|
  {
    if s == [] then []
    else if IsJsSpace(s[0]) then
      var rest := s[RunEnd(s, 0, IsJsSpace)..];
      assert forall c :: c in rest ==> c in s;
      "_" + CollapseSpaces(rest)
    else
      assert forall c :: c in s[1..] ==> c in s;
      [s[0]] + CollapseSpaces(s[1..])
  }

  /** Text without whitespace has nothing to collapse. */
  lemma {:induction false} CollapseSpacesNoop(s: string)
    requires forall k :: 0 <= k < |s| ==> !IsJsSpace(s[k])
    ensures CollapseSpaces(s) == s
  {
    if s != [] {
      CollapseSpacesNoop(s[1..]);
    }
  }

  /** A whitespace run on its own becomes a single `_`. */
  lemma CollapseSpacesRun(w: string)
    requires w != [] && AllSpace(w)
    ensures CollapseSpaces(w) == "_"
  {
    RunEndUnique(w, 0, |w|, IsJsSpace);
    assert w[|w|..] == [];
  }

  predicate AllSpace(w: string) {
    forall k :: 0 <= k < |w| ==> IsJsSpace(w[k])
  }

  predicate NoSpaceAtEnd(x: string) {
    x == [] || !IsJsSpace(x[|x| - 1])
  }

  predicate NoSpaceAtStart(y: string) {
    y == [] || !IsJsSpace(y[0])
  }

  /** Whitespace at most at one side of a cut: no run straddles it. */
  predicate CleanCut(x: string, y: string) {
    NoSpaceAtEnd(x) || NoSpaceAtStart(y)
  }

  lemma UpperSpaces(s: string)
    ensures NoSpaceAtEnd(ToUpper(s)) == NoSpaceAtEnd(s)
    ensures NoSpaceAtStart(ToUpper(s)) == NoSpaceAtStart(s)
    ensures AllSpace(ToUpper(s)) == AllSpace(s)
  {
    assert forall k :: 0 <= k < |s| ==> (IsJsSpace(ToUpper(s)[k]) <==> IsJsSpace(s[k]));
  }

  /** One whitespace run between two pieces that do not touch it. */
  lemma CollapseSpacesJoin(x: string, w: string, y: string)
    requires NoSpaceAtEnd(x) && w != [] && AllSpace(w) && NoSpaceAtStart(y)
    ensures CollapseSpaces(x + w + y) == CollapseSpaces(x) + "_" + CollapseSpaces(y)
  {
    var wy := w + y;
    assert x + w + y == x + wy;
    assert CleanCut(x, wy);
    CollapseSpacesAppend(x, wy);
    assert CleanCut(w, y);
    CollapseSpacesAppend(w, y);
    CollapseSpacesRun(w);
    AppendAssoc(CollapseSpaces(x), "_", CollapseSpaces(y));
  }

  /** Collapsing works piece by piece when no whitespace run is cut in two;
      with CollapseSpacesRun and CollapseSpacesNoop this determines the result. */
  lemma {:induction false} CollapseSpacesAppend(x: string, y: string)
    requires CleanCut(x, y)
    ensures CollapseSpaces(x + y) == CollapseSpaces(x) + CollapseSpaces(y)
    decreases |x|
  {
    if x == [] {
      assert x + y == y;
    } else if y == [] {
      assert x + y == x;
    } else if !IsJsSpace(x[0]) {
      assert (x + y)[1..] == x[1..] + y;
      CollapseSpacesAppend(x[1..], y);
    } else {
      var e := RunEnd(x, 0, IsJsSpace);
      if e < |x| {
        RunEndUnique(x + y, 0, e, IsJsSpace);
        assert (x + y)[e..] == x[e..] + y;
        CollapseSpacesAppend(x[e..], y);
      } else {
        RunEndUnique(x + y, 0, |x|, IsJsSpace);
        assert (x + y)[|x|..] == y;
        assert x[e..] == [];
      }
    }
  }

  /** The name an action label is dispatched on: upper-cased, whitespace runs as `_`. */
  function NormalizeAction(name: string): (r: string)
    ensures forall k :: 0 <= k < |r| ==> !IsJsSpace(r[k]) && !IsAsciiLower(r[k])
  {
    var u := ToUpper(name);
    assert forall c :: c in u ==> !IsAsciiLower(c);
    CollapseSpaces(u)
  }

  /** A name without whitespace is only upper-cased. */
  lemma NormalizeWord(x: string)
    requires forall k :: 0 <= k < |x| ==> !IsJsSpace(x[k])
    ensures NormalizeAction(x) == ToUpper(x)
  {
    CollapseSpacesNoop(ToUpper(x));
  }

  /** Each whitespace run between two words of a label becomes one `_`:
      "check  order" and "Check\torder" both name CHECK_ORDER. */
  lemma NormalizeJoin(x: string, w: string, y: string)
    requires NoSpaceAtEnd(x) && w != [] && AllSpace(w) && NoSpaceAtStart(y)
    ensures NormalizeAction(x + w + y) == NormalizeAction(x) + "_" + NormalizeAction(y)
  {
    ToUpperAppend(x + w, y);
    ToUpperAppend(x, w);
    UpperSpaces(x);
    UpperSpaces(w);
    UpperSpaces(y);
    CollapseSpacesJoin(ToUpper(x), ToUpper(w), ToUpper(y));
  }

  lemma UpperNoop(s: string)
    requires forall k :: 0 <= k < |s| ==> !IsAsciiLower(s[k])
    ensures ToUpper(s) == s
  {
  }

  /** Normalising twice is normalising once. */
  lemma NormalizeIdempotent(name: string)
    ensures NormalizeAction(NormalizeAction(name)) == NormalizeAction(name)
  {
    var n := NormalizeAction(name);
    UpperNoop(n);
    CollapseSpacesNoop(n);
  }

  /** Action names are spelled with capital letters and underscores. */
  lemma KnownActionsShape(a: string)
    requires a in KnownActions
    ensures forall k :: 0 <= k < |a| ==> IsAsciiUpper(a[k]) || a[k] == '_'
  {
  }

  /** Every handler's own name reaches that handler unchanged. */
  lemma KnownActionsAreNormal(a: string)
    requires a in KnownActions
    ensures NormalizeAction(a) == a
  {
    KnownActionsShape(a);
    UpperNoop(a);
    CollapseSpacesNoop(a);
  }

  /** Group 1 of `/#?(\d{5,})/`, or '12345'. */
  function OrderId(message: string): (r: string)
    ensures r == match LongRunFrom(message, 0, IsAsciiDigit, 5)
                 case Some(a) => message[a..RunEnd(message, a, IsAsciiDigit)]
                 case None => DefaultOrderId
    ensures AllDigits(r) && |r| >= 5
    ensures (forall p: nat :: p <= |message| ==> !HasRunAt(message, p, IsAsciiDigit, 5)) ==> r == DefaultOrderId
    ensures forall a: nat, b: nat :: FirstLongRun(message, IsAsciiDigit, 5, a, b) ==> r == message[a..b]
  {
    LongRunIsFirst(message, IsAsciiDigit, 5);
    OrderIdIsFirstLongDigitRun(message, 0);
    match OrderIdFrom(message, 0)
    case Some(id) => id
    case None => DefaultOrderId
  }

  /** `[A-Z0-9]` (the tracking pattern has no `i` flag). */
  predicate IsTrackingChar(c: char) {
    IsAsciiUpper(c) || IsAsciiDigit(c)
  }

  /** The match of `/([A-Z0-9]{10,})/`, or 'FDX1234567890'. */
  function TrackingNumber(message: string): (r: string)
    ensures |r| >= 10 && forall k :: 0 <= k < |r| ==> IsTrackingChar(r[k])
    ensures (forall p: nat :: p <= |message| ==> !HasRunAt(message, p, IsTrackingChar, 10)) ==> r == DefaultTracking
    ensures forall a: nat, b: nat :: FirstLongRun(message, IsTrackingChar, 10, a, b) ==> r == message[a..b]
  {
    LongRunIsFirst(message, IsTrackingChar, 10);
    match LongRunFrom(message, 0, IsTrackingChar, 10)
    case Some(a) => message[a..RunEnd(message, a, IsTrackingChar)]
    case None => DefaultTracking
  }

  /** Group 1 of the email pattern, or 'your registered email'. */
  function Email(message: string): (r: string)
    ensures (forall p :: 0 <= p <= |message| ==> EmailAt(message, p).None?) ==> r == DefaultEmail
    ensures r == DefaultEmail || ('@' in r && Contains(message, r))
    ensures (exists p :: 0 <= p <= |message| && EmailAt(message, p).Some?) ==> '@' in r && Contains(message, r)
  {
    var found := EmailFrom(message, 0);
    if found.Some? then found.value else DefaultEmail
  }

  /** The refund reference digits: the last six digits of the clock reading. */
  function RefundReference(clock: nat): string {
    SliceLast(Decimal(clock), 6)
  }

  /** The reference is at most six digits and denotes the clock modulo 10^6. */
  lemma RefundReferenceDigits(clock: nat)
    ensures |RefundReference(clock)| <= 6 && AllDigits(RefundReference(clock))
    ensures DigitsValue(RefundReference(clock)) == clock % 1000000
    ensures clock >= 100000 ==> |RefundReference(clock)| == 6
  {
    SliceLastDecimal(clock, 6);
    assert Pow10(6) == 1000000;
    if clock >= 100000 {
      assert Pow10(5) == 100000;
      DecimalLength(clock, 5);
    }
  }

  /** The canned report of each handler. */
  // The fixed parts of the handlers' texts, character for character.

  const StatusBody := " Status:\n\U{2022} Status: In Transit\n\U{2022} Shipped: Nov 25, 2024\n"
      + "\U{2022} Expected Delivery: Nov 28, 2024\n\U{2022} Carrier: FedEx\n"
      + "\U{2022} Tracking: Track at fedex.com with tracking number FDX"

  const RefundHead := "Refund request submitted successfully.\n\U{2022} Reference Number: "

  const PasswordHead := "Password reset email has been "

  const ShippingHead := "Shipping address update processed for "

  const CancelBody := " has been cancelled successfully. \n\U{2022} Cancellation confirmed\n"
      + "\U{2022} Refund will be processed within 3-5 business days\n\U{2022} You'll receive an email confirmation"

  const RefundBody := "\n\U{2022} Refund Amount: Will be calculated based on return\n"
      + "\U{2022} Processing Time: 5-7 business days after item received"

  const PasswordBody := "\n\U{2022} Check your inbox (and spam folder)\n"
      + "\U{2022} Link expires in 24 hours\n\U{2022} Follow the link to create a new password"

  const ShippingBody := ".\n"
      + "\U{2022} Change will be reflected in 15-30 minutes\n\U{2022} You'll receive a confirmation email\n"
      + "\U{2022} If order already shipped, please contact carrier"

  const TrackingBody := "\n\U{2022} Current Location: Distribution Center, Chicago, IL\n"
      + "\U{2022} Last Update: Today at 8:45 AM\n\U{2022} Status: Out for Delivery\n"
      + "\U{2022} Expected Delivery: Today by 8:00 PM\n\U{2022} Track live: fedex.com/tracking"

  function OrderStatusText(id: string): (r: string)
    ensures StartsWith(r, "Order #" + id)
  {
    "Order #" + id + StatusBody + id
  }

  const AccountText := "Account information has been updated successfully. You will receive a confirmation email shortly."

  function CancelText(id: string): (r: string)
    ensures StartsWith(r, "Order #" + id)
  {
    "Order #" + id + CancelBody
  }

  function RefundText(reference: string, id: string): (r: string)
    ensures r != []
    ensures Contains(r, "RF-" + reference)
    ensures Contains(r, "Order #" + id)
  {
    var head := RefundHead;
    var upToOrder := head + "RF-" + reference + "\n\U{2022} ";
    var r := upToOrder + "Order #" + id + RefundBody;
    assert OccursAt(r, "RF-" + reference, |head|);
    assert OccursAt(r, "Order #" + id, |upToOrder|);
    r
  }

  function PasswordText(email: string): (r: string)
    ensures r != []
    ensures Contains(r, "sent to " + email + ".")
  {
    var head := PasswordHead;
    var r := head + "sent to " + email + "." + PasswordBody;
    assert OccursAt(r, "sent to " + email + ".", |head|);
    r
  }

  function ShippingText(id: string): (r: string)
    ensures r != []
    ensures Contains(r, "Order #" + id)
  {
    var head := ShippingHead;
    var r := head + "Order #" + id + ShippingBody;
    assert OccursAt(r, "Order #" + id, |head|);
    r
  }

  function TrackingText(tracking: string): (r: string)
    ensures r != []
    ensures StartsWith(r, "Package Tracking - " + tracking + ":")
  {
    "Package Tracking - " + tracking + ":" + TrackingBody
  }

  /** The seven cases of the handler switch. */
  datatype Handler = CheckOrderStatus | UpdateAccount | CancelOrder | RefundRequest
                   | ResetPassword | UpdateShipping | TrackPackage
  {
    function Name(): string {
      match this
      case CheckOrderStatus => "CHECK_ORDER_STATUS"
      case UpdateAccount => "UPDATE_ACCOUNT"
      case CancelOrder => "CANCEL_ORDER"
      case RefundRequest => "REFUND_REQUEST"
      case ResetPassword => "RESET_PASSWORD"
      case UpdateShipping => "UPDATE_SHIPPING"
      case TrackPackage => "TRACK_PACKAGE"
    }
  }

  /** The case a normalised action name selects, if any. */
  function HandlerFor(action: string): (r: Option<Handler>)
    ensures r.Some? <==> action in KnownActions
    ensures r.Some? ==> r.value.Name() == action
  {
    if action == "CHECK_ORDER_STATUS" then Some(CheckOrderStatus)
    else if action == "UPDATE_ACCOUNT" then Some(UpdateAccount)
    else if action == "CANCEL_ORDER" then Some(CancelOrder)
    else if action == "REFUND_REQUEST" then Some(RefundRequest)
    else if action == "RESET_PASSWORD" then Some(ResetPassword)
    else if action == "UPDATE_SHIPPING" then Some(UpdateShipping)
    else if action == "TRACK_PACKAGE" then Some(TrackPackage)
    else None
  }

  /** Each handler is selected by its own name and by no other. */
  lemma HandlerForName(h: Handler)
    ensures HandlerFor(h.Name()) == Some(h)
  {
  }

  /** The text a handler reports for a message at a clock reading. */
  function HandlerData(h: Handler, message: string, clock: nat): (r: string)
    ensures r != []
    ensures h == CheckOrderStatus ==> StartsWith(r, "Order #" + OrderId(message))
    ensures h == UpdateAccount ==> r == AccountText
    ensures h == CancelOrder ==> StartsWith(r, "Order #" + OrderId(message))
    ensures h == RefundRequest ==>
      Contains(r, "RF-" + RefundReference(clock)) && Contains(r, "Order #" + OrderId(message))
    ensures h == ResetPassword ==> Contains(r, "sent to " + Email(message) + ".")
    ensures h == UpdateShipping ==> Contains(r, "Order #" + OrderId(message))
    ensures h == TrackPackage ==> StartsWith(r, "Package Tracking - " + TrackingNumber(message) + ":")
  {
    match h
    case CheckOrderStatus => OrderStatusText(OrderId(message))
    case UpdateAccount => AccountText
    case CancelOrder => CancelText(OrderId(message))
    case RefundRequest => RefundText(RefundReference(clock), OrderId(message))
    case ResetPassword => PasswordText(Email(message))
    case UpdateShipping => ShippingText(OrderId(message))
    case TrackPackage => TrackingText(TrackingNumber(message))
  }

  /** `executeAction`: a known (normalised) name succeeds under that name with
      its handler's text; anything else fails under the label as given. */
  function ExecuteAction(actionType: string, message: string, clock: nat): (r: ActionResult)
    ensures r.success <==> NormalizeAction(actionType) in KnownActions
    ensures r.success ==> r.kind == NormalizeAction(actionType) && r.error.None?
                          && r.data.Some? && r.data.value.Details? && r.data.value.text != []
    ensures r.success ==>
      && HandlerFor(NormalizeAction(actionType)).Some?
      && r.data == Some(Details(HandlerData(HandlerFor(NormalizeAction(actionType)).value, message, clock)))
    ensures !r.success ==> r == ActionResult(actionType, false, None, Some(NotRecognized))
  {
    var n := NormalizeAction(actionType);
    match HandlerFor(n)
    case Some(h) => ActionResult(n, true, Some(Details(HandlerData(h, message, clock))), None)
    case None => ActionResult(actionType, false, None, Some(NotRecognized))
  }

  /** Any spelling of a known action whose normalisation is that action runs it. */
  lemma ExecuteActionSpelling(actionType: string, a: string, message: string, clock: nat)
    requires a in KnownActions && NormalizeAction(actionType) == a
    ensures ExecuteAction(actionType, message, clock) == ExecuteAction(a, message, clock)
  {
    KnownActionsAreNormal(a);
  }

  /** JavaScript truthiness of the `data` field. */
  predicate HasData(r: ActionResult) {
    r.data.Some? && (r.data.value.Ticket? || r.data.value.text != [])
  }

  /** The text `${data}` yields: the string, or the generic object rendering. */
  function DataText(d: ActionData): string {
    match d
    case Details(t) => t
    case Ticket(_, _) => "[object Object]"
  }

  /** The line appended to the explanation: a tick and the data, or a cross and the error. */
  function ResultLine(r: ActionResult): (line: string)
    ensures StartsWith(line, "\n\n\U{2713} ") <==> r.success
    ensures StartsWith(line, "\n\n\U{2717} ") <==> !r.success
    ensures r.success && r.data.Some? && r.data.value.Details? && r.data.value.text != [] ==>
      line == "\n\n\U{2713} " + r.data.value.text
  {
    if r.success then
      "\n\n\U{2713} " + (if HasData(r) then DataText(r.data.value) else CompletedText)
    else
      "\n\n\U{2717} " + (if r.error.Some? && r.error.value != [] then r.error.value else UnableText)
  }

  /** The trimmed `ACTION:\s*(.+)` group, if the reply has one: part of a
      single line, with no whitespace at either end. */
  function ActionLabel(reply: string): (r: Option<string>)
    ensures r.Some? <==> FindLabelled(reply, "ACTION:", NotLineTerminator).Some?
    ensures r.Some? ==> r.value == Trim(FindLabelled(reply, "ACTION:", NotLineTerminator).value)
    ensures r.Some? ==> forall k :: 0 <= k < |r.value| ==> NotLineTerminator(r.value[k])
    ensures r.Some? && r.value != [] ==> !IsJsSpace(r.value[0]) && !IsJsSpace(r.value[|r.value| - 1])
  {
    var found := FindLabelled(reply, "ACTION:", NotLineTerminator);
    if found.Some? then Some(TrimmedLine(found.value)) else None
  }

  /** The trimmed capture of a one-line field, or the empty string. */
  function Field(reply: string, tag: string): (r: string)
    ensures FindLabelled(reply, tag, NotLineTerminator).None? ==> r == []
    ensures FindLabelled(reply, tag, NotLineTerminator).Some? ==>
      r == Trim(FindLabelled(reply, tag, NotLineTerminator).value)
    ensures forall k :: 0 <= k < |r| ==> NotLineTerminator(r[k])
    ensures r != [] ==> !IsJsSpace(r[0]) && !IsJsSpace(r[|r| - 1])
  {
    var found := FindLabelled(reply, tag, NotLineTerminator);
    if found.Some? then TrimmedLine(found.value) else []
  }

  function Explanation(reply: string): string {
    Field(reply, "EXPLANATION:")
  }

  /** The PARAMETERS line asks for more information, in any letter case. */
  predicate NeedsMoreInfo(reply: string)
    ensures NeedsMoreInfo(reply) ==> FindLabelled(reply, "PARAMETERS:", NotLineTerminator).Some?
  {
    var u := ToUpper(Field(reply, "PARAMETERS:"));
    assert u == [] ==> !Contains(u, "NEED_MORE_INFO");
    Contains(u, "NEED_MORE_INFO")
  }

  /** What the agent answers once the model has replied. */
  function ActionFromReply(reply: string, message: string, clock: nat): (r: AgentResponse)
    ensures r.agent == "action" && r.sources.None?
    ensures ActionLabel(reply).None? ==> r == AgentResponse(ClarifyText, "action", 0.4, None, None)
    ensures r.action.Some? <==> ActionLabel(reply).Some? && !NeedsMoreInfo(reply)
    ensures ActionLabel(reply).Some? && NeedsMoreInfo(reply) ==>
      r.confidence == 0.6 && r.response == Explanation(reply) + MoreInfoSuffix
    ensures r.action.Some? ==>
      r.confidence == 0.85 && r.action.value == ExecuteAction(ActionLabel(reply).value, message, clock)
      && r.response == Explanation(reply) + ResultLine(r.action.value)
  {
    var found := ActionLabel(reply);
    if found.None? then AgentResponse(ClarifyText, "action", 0.4, None, None)
    else
      var actionType := found.value;
      var explanation := Explanation(reply);
      if NeedsMoreInfo(reply) then
        AgentResponse(explanation + MoreInfoSuffix, "action", 0.6, None, None)
      else
        var result := ExecuteAction(actionType, message, clock);
        AgentResponse(explanation + ResultLine(result), "action", 0.85, None, Some(result))
  }

  /** A missing PARAMETERS line does not hold the action back. */
  lemma MissingParametersRuns(reply: string, message: string, clock: nat)
    requires ActionLabel(reply).Some? && FindLabelled(reply, "PARAMETERS:", NotLineTerminator).None?
    ensures ActionFromReply(reply, message, clock).action.Some?
  {
  }

  /** A successful run reports the handler's text after a tick; a failed one the
      error after a cross. */
  lemma ActionOutcomeShown(reply: string, message: string, clock: nat)
    requires ActionLabel(reply).Some? && !NeedsMoreInfo(reply)
    ensures var r := ActionFromReply(reply, message, clock);
      var a := NormalizeAction(ActionLabel(reply).value);
      (a in KnownActions ==>
        r.response == Explanation(reply) + "\n\n\U{2713} " + HandlerData(HandlerFor(a).value, message, clock))
      && (a !in KnownActions ==> r.response == Explanation(reply) + "\n\n\U{2717} " + NotRecognized)
  {
    var result := ExecuteAction(ActionLabel(reply).value, message, clock);
    var e := Explanation(reply);
    assert ActionFromReply(reply, message, clock).response == e + ResultLine(result);
    ExecuteActionLine(ActionLabel(reply).value, message, clock);
    var a := NormalizeAction(ActionLabel(reply).value);
    if a in KnownActions {
      AppendAssoc(e, "\n\n\U{2713} ", HandlerData(HandlerFor(a).value, message, clock));
    } else {
      AppendAssoc(e, "\n\n\U{2717} ", NotRecognized);
    }
  }

  lemma AppendAssoc(e: string, x: string, y: string)
    ensures e + (x + y) == e + x + y
  {
  }

  /** The result line of a run: the handler's text after a tick, or the
      error after a cross. */
  lemma ExecuteActionLine(actionType: string, message: string, clock: nat)
    ensures var a := NormalizeAction(actionType);
      var line := ResultLine(ExecuteAction(actionType, message, clock));
      (a in KnownActions ==> line == "\n\n\U{2713} " + HandlerData(HandlerFor(a).value, message, clock))
      && (a !in KnownActions ==> line == "\n\n\U{2717} " + NotRecognized)
  {
  }

  /** `process`: a failed generation yields the apology at confidence 0.3. */
  function Process(env: Env, message: string, history: seq<Message>): (r: AgentResponse)
    ensures r.agent == "action"
    ensures env.generate(ActionRequest(message, history)).Fail? ==>
      r == AgentResponse(ActionApology, "action", 0.3, None, None)
    ensures env.generate(ActionRequest(message, history)).Ok? ==>
      r == ActionFromReply(env.generate(ActionRequest(message, history)).value, message, env.clock)
  {
    match env.generate(ActionRequest(message, history))
    case Fail => AgentResponse(ActionApology, "action", 0.3, None, None)
    case Ok(reply) => ActionFromReply(reply, message, env.clock)
  }
}
