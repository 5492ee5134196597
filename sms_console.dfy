/**
 * The SMS console's form controller: connection settings, message input,
 * the per-recipient results list, and the send workflow that validates the
 * form, marks every recipient pending and then sends to the recipients one
 * after another, recording each outcome.
 */
module SmsConsole {
  import opened Wrappers
  import opened JsonValue
  import opened JsString
  import opened Recipients
  import Decimal
  import opened JasminClient

  datatype Status = Pending | Sending | Sent | Failed

  /** One row of the delivery trail. */
  datatype Entry = Entry(to: string, status: Status, details: Json)

  /** The console state a send reads: what sendSms is called with besides the
      recipient, and the build-time default base URL. */
  datatype Settings = Settings(
    configured: string, baseUrl: string, username: string, password: string,
    from: string, requestDlr: bool, coding: string, message: string)

  /** One call of a send: the recipient, the request sendSms issued for it,
      and the results list at the moment it was issued. */
  datatype Dispatch = Dispatch(to: string, request: Option<HttpRequest>, results: seq<Entry>, sending: bool)

  /** The network as the i-th request of a send sees it. */
  type Gateway = nat -> Network

  const CredentialsRequired := "Username and password are required"
  const MessageRequired := "Message content is required"
  const RecipientRequired := "Add at least one recipient"
  const NotePrefix := "Attempted delivery to "

  predicate IsSettled(s: Status)
  {
    s == Sent || s == Failed
  }

  /** The checks handleSend makes before sending, in order; None when all pass. */
  function Validate(username: string, password: string, message: string, recipients: seq<string>): Option<string>
  {
    if Trim(username) == [] || Trim(password) == [] then Some(CredentialsRequired)
    else if Trim(message) == [] then Some(MessageRequired)
    else if recipients == [] then Some(RecipientRequired)
    else None
  }

  /** Validation passes exactly when every check does, and otherwise names the
      first check that fails: credentials, then message, then recipients. */
  lemma ValidationOrder(username: string, password: string, message: string, recipients: seq<string>)
    ensures var r := Validate(username, password, message, recipients);
      && (r == None <==> !AllWhitespace(username) && !AllWhitespace(password) && !AllWhitespace(message) && recipients != [])
      && (r == Some(CredentialsRequired) <==> AllWhitespace(username) || AllWhitespace(password))
      && (r == Some(MessageRequired) <==> !AllWhitespace(username) && !AllWhitespace(password) && AllWhitespace(message))
      && (r == Some(RecipientRequired) <==>
            !AllWhitespace(username) && !AllWhitespace(password) && !AllWhitespace(message) && recipients == [])
  {
  }

  /** The arguments handleSend passes to sendSms for recipient `to`. */
  function ParamsFor(s: Settings, to: string): SendParams
  {
    SendParams(s.baseUrl, s.username, s.password, s.from, to, s.message,
      if s.requestDlr then 1 else 0, s.coding)
  }

  /** `recipients.map((to) => ({ to, status: 'pending', details: '' }))` */
  function PendingEntries(recipients: seq<string>): (r: seq<Entry>)
    ensures |r| == |recipients|
    ensures forall k :: 0 <= k < |r| ==> r[k] == Entry(recipients[k], Pending, JStr(""))
  {
    seq(|recipients|, k requires 0 <= k < |recipients| => Entry(recipients[k], Pending, JStr("")))
  }

  /** `prev.map((item) => item.to === to ? { ...item, status, details } : item)`;
      `details` None keeps each item's details. */
  function MarkMatching(prev: seq<Entry>, to: string, status: Status, details: Option<Json>): (r: seq<Entry>)
    ensures |r| == |prev|
    ensures forall k :: 0 <= k < |r| && prev[k].to == to ==>
      r[k] == Entry(to, status, if details.Some? then details.value else prev[k].details)
    ensures forall k :: 0 <= k < |r| && prev[k].to != to ==> r[k] == prev[k]
  {
    seq(|prev|, k requires 0 <= k < |prev| =>
      if prev[k].to == to
      then Entry(prev[k].to, status, if details.Some? then details.value else prev[k].details)
      else prev[k])
  }

  /** `response.messageId || response.payload?.['message-id'] || response.raw` */
  function SentDetails(d: Delivery): Json
  {
    Or(Or(d.messageId, Member(d.payload, "message-id")), Some(JStr(d.raw))).value
  }

  /** The row of recipient `to` once its request has settled. */
  function SettledEntry(to: string, outcome: SendResult): (e: Entry)
    ensures e.to == to && IsSettled(e.status)
    ensures e.status == Sent <==> outcome.Success?
    ensures outcome.Success? ==> e.details == SentDetails(outcome.value)
    ensures outcome.Failure? ==> e.details == outcome.error
  {
    match outcome
    case Success(d) => Entry(to, Sent, SentDetails(d))
    case Failure(message) => Entry(to, Failed, message)
  }

  /** What the i-th call of the send loop yields; the gateway answers the
      i-th request with `gateway(i)`. */
  function CallOutcome(s: Settings, recipients: seq<string>, gateway: Gateway, i: nat): SendResult
    requires i < |recipients|
  {
    SendOutcome(ParamsFor(s, recipients[i]), s.configured, gateway(i))
  }

  /** Index of the last occurrence of `x` in `s`. */
  function LastIndexOf(s: seq<string>, x: string): (i: nat)
    requires x in s
    ensures i < |s| && s[i] == x
    ensures forall j :: i < j < |s| ==> s[j] != x
  {
    if s[|s| - 1] == x then |s| - 1 else LastIndexOf(s[..|s| - 1], x)
  }

  /** Row k after the first `done` calls: settled by the last call so far for
      its recipient, or still pending when there was none. */
  function EntryAfter(s: Settings, recipients: seq<string>, gateway: Gateway, done: nat, k: nat): Entry
    requires done <= |recipients| && k < |recipients|
  {
    var prefix := recipients[..done];
    if recipients[k] in prefix
    then SettledEntry(recipients[k], CallOutcome(s, recipients, gateway, LastIndexOf(prefix, recipients[k])))
    else Entry(recipients[k], Pending, JStr(""))
  }

  /** The whole results list after the first `done` calls. */
  function ResultsAfter(s: Settings, recipients: seq<string>, gateway: Gateway, done: nat): seq<Entry>
    requires done <= |recipients|
  {
    seq(|recipients|, k requires 0 <= k < |recipients| => EntryAfter(s, recipients, gateway, done, k))
  }

  lemma LastIndexOfExtend(s: seq<string>, i: nat, x: string)
    requires i < |s| && x in s[..i + 1]
    ensures x != s[i] ==> x in s[..i] && LastIndexOf(s[..i + 1], x) == LastIndexOf(s[..i], x)
    ensures x == s[i] ==> LastIndexOf(s[..i + 1], x) == i
  {
    assert s[..i + 1][..i] == s[..i];
  }

  /** One turn of the send loop: marking the recipient's rows sending, then
      settling them with the outcome of call i, advances the results list
      from `i` calls to `i + 1`. */
  lemma SendStep(s: Settings, recipients: seq<string>, gateway: Gateway, i: nat, results: seq<Entry>)
    requires i < |recipients| && results == ResultsAfter(s, recipients, gateway, i)
    ensures var to := recipients[i];
      var e := SettledEntry(to, CallOutcome(s, recipients, gateway, i));
      MarkMatching(MarkMatching(results, to, Sending, None), to, e.status, Some(e.details))
        == ResultsAfter(s, recipients, gateway, i + 1)
  {
    var to := recipients[i];
    var e := SettledEntry(to, CallOutcome(s, recipients, gateway, i));
    var marked := MarkMatching(results, to, Sending, None);
    var next := MarkMatching(marked, to, e.status, Some(e.details));
    assert recipients[..i + 1] == recipients[..i] + [to];
    var after := ResultsAfter(s, recipients, gateway, i + 1);
    forall k | 0 <= k < |recipients|
      ensures next[k] == after[k]
    {
      assert results[k] == EntryAfter(s, recipients, gateway, i, k);
      if recipients[k] in recipients[..i + 1] {
        LastIndexOfExtend(recipients, i, recipients[k]);
      }
    }
    assert next == after;
  }

  /** The results list as call i is issued has the shape DispatchedInOrder states. */
  lemma DispatchShape(s: Settings, recipients: seq<string>, gateway: Gateway, i: nat, results: seq<Entry>)
    requires i < |recipients| && results == ResultsAfter(s, recipients, gateway, i)
    ensures var to := recipients[i];
      DispatchedInOrder(s, recipients, i,
        Dispatch(to, IssuedRequest(ParamsFor(s, to), s.configured), MarkMatching(results, to, Sending, None), true))
  {
    var to := recipients[i];
    var marked := MarkMatching(results, to, Sending, None);
    assert recipients[..i + 1] == recipients[..i] + [to];
    forall k | 0 <= k < |recipients|
      ensures marked[k].to == recipients[k]
      ensures recipients[k] in recipients[..i] && recipients[k] != to ==> IsSettled(marked[k].status)
    {
      assert results[k] == EntryAfter(s, recipients, gateway, i, k);
    }
  }

  /** Call `j` is for recipient j and issues the request sendSms builds from
      the form for that recipient. As it is issued, the rows of that recipient
      are sending, rows of recipients already served are settled, and rows of
      recipients still to come are pending. */
  predicate DispatchedInOrder(s: Settings, recipients: seq<string>, j: nat, d: Dispatch)
    requires j < |recipients|
  {
    && d.to == recipients[j]
    && d.request == IssuedRequest(ParamsFor(s, recipients[j]), s.configured)
    && d.sending
    && |d.results| == |recipients|
    && forall k :: 0 <= k < |recipients| ==>
      && d.results[k].to == recipients[k]
      && (recipients[k] == recipients[j] ==> d.results[k].status == Sending)
      && (recipients[k] in recipients[..j] && recipients[k] != recipients[j] ==> IsSettled(d.results[k].status))
      && (recipients[k] !in recipients[..j + 1] ==> d.results[k].status == Pending && d.results[k].details == JStr(""))
  }

  /** One dispatch per call made so far, each DispatchedInOrder. */
  predicate DispatchLog(s: Settings, recipients: seq<string>, done: nat, dispatches: seq<Dispatch>)
    requires done <= |recipients|
  {
    && |dispatches| == done
    && forall j :: 0 <= j < done ==> DispatchedInOrder(s, recipients, j, dispatches[j])
  }

  /** Before the first call every row is pending. */
  lemma PendingIsStart(s: Settings, recipients: seq<string>, gateway: Gateway)
    ensures PendingEntries(recipients) == ResultsAfter(s, recipients, gateway, 0)
  {
    assert recipients[..0] == [];
  }

  /** A dispatch of the right shape extends the log by one call. */
  lemma DispatchLogExtend(s: Settings, recipients: seq<string>, i: nat, dispatches: seq<Dispatch>, d: Dispatch)
    requires i < |recipients| && DispatchLog(s, recipients, i, dispatches) && DispatchedInOrder(s, recipients, i, d)
    ensures DispatchLog(s, recipients, i + 1, dispatches + [d])
  {
    var next := dispatches + [d];
    forall j | 0 <= j < i + 1
      ensures DispatchedInOrder(s, recipients, j, next[j])
    {
      if j < i {
        assert next[j] == dispatches[j];
      }
    }
  }

  /** The summary note. */
  function NoteText(n: nat): string
  {
    NotePrefix + Decimal.NatToString(n) + " recipient" + (if n > 1 then "s" else "") + "."
  }

  /** `results.filter((r) => r.status === status).length` */
  function CountStatus(results: seq<Entry>, status: Status): (n: nat)
    ensures n <= |results|
    ensures n == 0 <==> forall k :: 0 <= k < |results| ==> results[k].status != status
  {
    if results == [] then 0
    else (if results[0].status == status then 1 else 0) + CountStatus(results[1..], status)
  }

  /** Counting distributes over concatenation. */
  lemma {:induction false} CountStatusAppend(a: seq<Entry>, b: seq<Entry>, status: Status)
    ensures CountStatus(a + b, status) == CountStatus(a, status) + CountStatus(b, status)
  {
    if a == [] {
      assert a + b == b;
    } else {
      assert (a + b)[1..] == a[1..] + b;
      CountStatusAppend(a[1..], b, status);
    }
  }

  /** A single row counts once exactly when it has the status. */
  lemma CountStatusOne(e: Entry, status: Status)
    ensures CountStatus([e], status) == if e.status == status then 1 else 0
  {
    assert [e][1..] == [];
  }

  /** The success details are the reply's message id, else the payload's
      'message-id', else the raw body (even when that is empty). */
  lemma {:induction false} SentDetailsIsFirstTruthy(d: Delivery)
    ensures var candidates := [d.messageId, Member(d.payload, "message-id")];
      var i := FirstTruthy(candidates);
      SentDetails(d) == if i < |candidates| then candidates[i].value else JStr(d.raw)
  {
    var candidates := [d.messageId, Member(d.payload, "message-id")];
    var fallback := Some(JStr(d.raw));
    OrChainIsFirstTruthy(candidates, fallback);
    assert candidates[1..][1..] == [];
    assert OrChain(candidates, fallback) == Or(candidates[0], Or(candidates[1], fallback));
  }

  /** A send that passed the console's checks is never refused by the client
      for missing credentials: the gateway's reply to the request decides it. */
  lemma ValidatedCallReachesGateway(s: Settings, recipients: seq<string>, gateway: Gateway, i: nat)
    requires i < |recipients| && Validate(s.username, s.password, s.message, recipients) == None
    ensures IssuedRequest(ParamsFor(s, recipients[i]), s.configured) == Some(Request(ParamsFor(s, recipients[i]), s.configured))
    ensures var reply := gateway(i)(Request(ParamsFor(s, recipients[i]), s.configured));
      CallOutcome(s, recipients, gateway, i)
        == if reply.Rejected? then Failure(JStr(reply.reason)) else InterpretResponse(reply.response)
  {
  }

  /** After the last call every row has settled with the outcome of the last
      call made for its recipient, so rows of a repeated recipient agree. */
  lemma FinalResults(s: Settings, recipients: seq<string>, gateway: Gateway)
    ensures var r := ResultsAfter(s, recipients, gateway, |recipients|);
      && |r| == |recipients|
      && (forall k :: 0 <= k < |r| ==> r[k].to == recipients[k] && IsSettled(r[k].status))
      && (forall k :: 0 <= k < |r| ==>
            r[k] == SettledEntry(recipients[k], CallOutcome(s, recipients, gateway, LastIndexOf(recipients, recipients[k]))))
      && (forall j, k :: 0 <= j < |r| && 0 <= k < |r| && recipients[j] == recipients[k] ==> r[j] == r[k])
  {
    var r := ResultsAfter(s, recipients, gateway, |recipients|);
    assert recipients[..|recipients|] == recipients;
    forall k | 0 <= k < |r|
      ensures r[k] == SettledEntry(recipients[k], CallOutcome(s, recipients, gateway, LastIndexOf(recipients, recipients[k])))
    {
      assert recipients[k] in recipients;
    }
  }

  /** Every row has exactly one of the four statuses. */
  lemma {:induction false} CountsPartition(results: seq<Entry>)
    ensures CountStatus(results, Pending) + CountStatus(results, Sending)
          + CountStatus(results, Sent) + CountStatus(results, Failed) == |results|
  {
    if results != [] {
      CountsPartition(results[1..]);
    }
  }

  /** Once every row has settled, the completed and failed counts add up to
      the number of rows. */
  lemma SettledCounts(results: seq<Entry>)
    requires forall k :: 0 <= k < |results| ==> IsSettled(results[k].status)
    ensures CountStatus(results, Sent) + CountStatus(results, Failed) == |results|
  {
    CountsPartition(results);
  }

  /** After a completed send, completed and failed together cover every row. */
  lemma FinalCounts(s: Settings, recipients: seq<string>, gateway: Gateway)
    ensures var r := ResultsAfter(s, recipients, gateway, |recipients|);
      CountStatus(r, Sent) + CountStatus(r, Failed) == |recipients|
  {
    FinalResults(s, recipients, gateway);
    SettledCounts(ResultsAfter(s, recipients, gateway, |recipients|));
  }

  /** The note starts with its fixed prefix, the number of recipients can be
      read back from it, and the noun is plural exactly when there was more
      than one recipient. */
  lemma NoteTextReadBack(n: nat)
    ensures var t := NoteText(n);
      && |NotePrefix| < |t|
      && t[..|NotePrefix|] == NotePrefix
      && Decimal.ReadNat(t[|NotePrefix|..]) == n
      && (t[|t| - 2] == 's' <==> n > 1)
  {
    var digits := Decimal.NatToString(n);
    var rest := " recipient" + (if n > 1 then "s" else "") + ".";
    assert NoteText(n) == NotePrefix + (digits + rest);
    assert NoteText(n)[|NotePrefix|..] == digits + rest;
    Decimal.ReadNatOfNatToString(n, rest);
  }

  class Console {
    /** The build-time default base URL setting. */
    const configured: string

    var baseUrl: string
    var username: string
    var password: string
    var from: string
    var requestDlr: bool
    var coding: string
    var recipientsInput: string
    var message: string
    var results: seq<Entry>
    var sending: bool
    var error: string
    var note: string

    /** The requests of the latest send, in the order they were issued. */
    ghost var dispatches: seq<Dispatch>

    /** The initial state of the form. */
    constructor (configured: string)
      ensures this.configured == configured
      ensures baseUrl == DefaultBaseUrl(configured)
      ensures username == [] && password == [] && from == []
      ensures requestDlr && coding == "0"
      ensures recipientsInput == [] && message == [] && results == []
      ensures !sending && error == [] && note == [] && dispatches == []
    {
      this.configured := configured;
      baseUrl := DefaultBaseUrl(configured);
      username, password, from := [], [], [];
      requestDlr, coding := true, "0";
      recipientsInput, message, results := [], [], [];
      sending, error, note := false, [], [];
      dispatches := [];
    }

    /** `recipients`, derived from the recipients text. */
    function Recipients(): seq<string>
      reads this`recipientsInput
    {
      ParseRecipients(recipientsInput)
    }

    function CurrentSettings(): Settings
      reads this`baseUrl, this`username, this`password, this`from, this`requestDlr, this`coding, this`message
    {
      Settings(configured, baseUrl, username, password, from, requestDlr, coding, message)
    }

    /** The outcome of handleSend's checks on the current form. */
    function Validation(): Option<string>
      reads this`username, this`password, this`message, this`recipientsInput
    {
      Validate(username, password, message, Recipients())
    }

    /** `completedCount`: the rows whose status is Sent. */
    function CompletedCount(): (n: nat)
      reads this`results
      ensures n <= |results|
      ensures n == 0 <==> forall k :: 0 <= k < |results| ==> results[k].status != Sent
    {
      CountStatus(results, Sent)
    }

    /** `failedCount`: the rows whose status is Failed; a row is never counted
        both as completed and as failed. */
    function FailedCount(): (n: nat)
      reads this`results
      ensures n == 0 <==> forall k :: 0 <= k < |results| ==> results[k].status != Failed
      ensures CompletedCount() + n <= |results|
    {
      CountsPartition(results);
      CountStatus(results, Failed)
    }

    /** handleSend, with the gateway answering the i-th request with
        `gateway(i)`. The handler works on the form as it was when the send
        was started. */
    method HandleSend(gateway: Gateway)
      modifies this`error, this`note, this`dispatches, this`sending, this`results
      ensures var v := old(Validation());
        v.Some? ==> error == v.value && note == [] && results == old(results)
                    && sending == old(sending) && dispatches == []
      ensures var recipients := old(Recipients());
        old(Validation()) == None ==>
          && error == [] && !sending && note == NoteText(|recipients|)
          && results == ResultsAfter(old(CurrentSettings()), recipients, gateway, |recipients|)
          && DispatchLog(old(CurrentSettings()), recipients, |recipients|, dispatches)
    {
      var settings, recipients := CurrentSettings(), Recipients();
      var invalid := Validation();
      error, note, dispatches := [], [], [];
      if invalid.Some? {
        error := invalid.value;
      } else {
        Deliver(settings, recipients, gateway);
      }
    }

    /** The part of handleSend after validation: every recipient pending,
        the requests one after another, then the summary note. */
    method Deliver(settings: Settings, recipients: seq<string>, gateway: Gateway)
      requires settings.configured == configured && dispatches == []
      modifies this`note, this`dispatches, this`sending, this`results
      ensures !sending && note == NoteText(|recipients|)
      ensures results == ResultsAfter(settings, recipients, gateway, |recipients|)
      ensures DispatchLog(settings, recipients, |recipients|, dispatches)
    {
      sending := true;
      results := PendingEntries(recipients);
      SendInOrder(settings, recipients, gateway);
      sending := false;
      note := NoteText(|recipients|);
    }

    /** The `for` loop of handleSend: one request per recipient, strictly in
        order, each settling the rows of its recipient before the next starts. */
    method SendInOrder(settings: Settings, recipients: seq<string>, gateway: Gateway)
      requires settings.configured == configured
      requires results == PendingEntries(recipients) && dispatches == [] && sending
      modifies this`results, this`dispatches
      ensures results == ResultsAfter(settings, recipients, gateway, |recipients|)
      ensures DispatchLog(settings, recipients, |recipients|, dispatches)
    {
      PendingIsStart(settings, recipients, gateway);
      var i := 0;
      while i < |recipients|
        invariant 0 <= i <= |recipients|
        invariant results == ResultsAfter(settings, recipients, gateway, i)
        invariant DispatchLog(settings, recipients, i, dispatches)
      {
        SendTo(settings, recipients, gateway, i);
        i := i + 1;
      }
    }

    /** One turn of the loop: the rows of recipient i are marked sending, the
        request is issued, and its outcome settles those rows. */
    method SendTo(settings: Settings, recipients: seq<string>, gateway: Gateway, i: nat)
      requires settings.configured == configured && i < |recipients| && sending
      requires results == ResultsAfter(settings, recipients, gateway, i)
      requires DispatchLog(settings, recipients, i, dispatches)
      modifies this`results, this`dispatches
      ensures results == ResultsAfter(settings, recipients, gateway, i + 1)
      ensures DispatchLog(settings, recipients, i + 1, dispatches)
    {
      var to := recipients[i];
      ghost var before := results;
      DispatchShape(settings, recipients, gateway, i, results);
      results := MarkMatching(results, to, Sending, None);
      var outcome, sent := SendSms(ParamsFor(settings, to), configured, gateway(i));
      ghost var d := Dispatch(to, sent, results, sending);
      DispatchLogExtend(settings, recipients, i, dispatches, d);
      dispatches := dispatches + [d];
      assert outcome == CallOutcome(settings, recipients, gateway, i);
      var settled := SettledEntry(to, outcome);
      results := MarkMatching(results, to, settled.status, Some(settled.details));
      SendStep(settings, recipients, gateway, i, before);
    }

    /** resetForm: clears the message state and keeps the connection settings. */
    method ResetForm()
      modifies this
      ensures recipientsInput == [] && message == [] && results == [] && error == [] && note == []
      ensures baseUrl == old(baseUrl) && username == old(username) && password == old(password)
      ensures from == old(from) && requestDlr == old(requestDlr) && coding == old(coding)
      ensures sending == old(sending) && dispatches == old(dispatches)
    {
      recipientsInput := [];
      message := [];
      results := [];
      error := [];
      note := [];
    }
  }
}
