/** The report e-mail (lib/utils/emailUtils.ts): the `EMAIL_TO` recipient list and the one
    Resend call that mails the workbook as an attachment. The environment variables, the React
    body and the service's reply are parameters; the messages handed to the service and the
    errors written to the console are the state of an `Outbox`. */
module EmailUtils {
  import opened Nullish
  import opened JsText

  // ---- parseRecipients -------------------------------------------------------------------------

  /** `parts.map((s) => s.trim())`. */
  function TrimAll(parts: seq<string>): (r: seq<string>)
    ensures |r| == |parts| && forall i :: 0 <= i < |parts| ==> r[i] == Trim(parts[i])
  {
    if parts == [] then [] else [Trim(parts[0])] + TrimAll(parts[1..])
  }

  /** `parseRecipients(value)`: the comma-separated entries of `value`, trimmed, empty ones
      dropped. Every address it yields is non-empty, has no whitespace at its ends and no comma;
      there are never more addresses than comma-separated pieces, and an unset variable gives none. */
  function ParseRecipients(value: Option<string>): (to: seq<string>)
    ensures forall i :: 0 <= i < |to| ==> to[i] != "" && IsTrimmed(to[i]) && ',' !in to[i]
    ensures |to| <= Count(value.OrElse(""), ',') + 1
    ensures value == None ==> to == []
  {
    var parts := Split(value.OrElse(""), ',');
    var trimmed := TrimAll(parts);
    forall i | 0 <= i < |trimmed| ensures ',' !in trimmed[i] {
      if ',' in trimmed[i] {
        TrimKeeps(parts[i], ',');
      }
    }
    NonEmpty(trimmed)
  }

  /** A value with no comma names at most one recipient: itself, trimmed, unless it is blank. */
  lemma ParseRecipientsOne(x: string)
    requires ',' !in x
    ensures ParseRecipients(Some(x)) == if Trim(x) == "" then [] else [Trim(x)]
  {
    SplitWithoutSeparator(x, ',');
    assert TrimAll([x]) == [Trim(x)];
    NonEmptySingle(Trim(x));
  }

  /** A comma splits the list in two: the recipients of `x + "," + y` are those of `x` followed by
      those of `y`. With `ParseRecipientsOne` this determines the result for every value, e.g.
      `"a ,,b"` names `a` and `b`. */
  lemma ParseRecipientsCons(x: string, y: string)
    ensures ParseRecipients(Some(x + [','] + y)) == ParseRecipients(Some(x)) + ParseRecipients(Some(y))
  {
    var left, right := Split(x, ','), Split(y, ',');
    SplitAroundSeparator(x, y, ',');
    TrimAllAppend(left, right);
    NonEmptyAppend(TrimAll(left), TrimAll(right));
  }

  /** `map(trim)` works entry by entry. */
  lemma {:induction false} TrimAllAppend(a: seq<string>, b: seq<string>)
    ensures TrimAll(a + b) == TrimAll(a) + TrimAll(b)
    decreases |a|
  {
    if a == [] {
      assert a + b == b;
    } else {
      assert (a + b)[0] == a[0] && (a + b)[1..] == a[1..] + b;
      TrimAllAppend(a[1..], b);
    }
  }

  /** Listing addresses with a comma followed by the same whitespace run `pad` each time is read
      back as exactly those addresses, in order: `EMAIL_TO="a@x.com, b@y.com"` names two
      recipients. */
  lemma RecipientsRoundTrip(addresses: seq<string>, pad: string)
    requires forall i :: 0 <= i < |addresses| ==>
               addresses[i] != "" && IsTrimmed(addresses[i]) && ',' !in addresses[i]
    requires AllWhitespace(pad) && ',' !in pad
    ensures ParseRecipients(Some(Join(addresses, [','] + pad))) == addresses
  {
    var s := Join(addresses, [','] + pad);
    if addresses == [] {
      assert TrimAll(Split(s, ',')) == [""] by { TrimEmptyIff(""); }
    } else {
      SplitJoin(addresses, ',', pad);
      TrimPadded(addresses, pad);
      NonEmptyKeepsAll(addresses);
    }
  }

  /** Trimming the pieces of a padded list gives back the list. */
  lemma TrimPadded(addresses: seq<string>, pad: string)
    requires |addresses| >= 1
    requires forall i :: 0 <= i < |addresses| ==> addresses[i] != "" && IsTrimmed(addresses[i])
    requires AllWhitespace(pad)
    ensures TrimAll([addresses[0]] + Prefixed(pad, addresses[1..])) == addresses
  {
    var rest := Prefixed(pad, addresses[1..]);
    var parts := [addresses[0]] + rest;
    var trimmed := TrimAll(parts);
    forall i | 0 <= i < |parts| ensures trimmed[i] == addresses[i] {
      if i == 0 {
        TrimTrimmed(addresses[0]);
      } else {
        assert parts[i] == rest[i - 1] == pad + addresses[1..][i - 1];
        TrimAfterWhitespace(pad, addresses[i]);
      }
    }
  }

  /** Line 20's guard fires exactly when `EMAIL_TO` is unset or holds nothing but commas and
      whitespace. */
  lemma NoRecipientsIff(value: Option<string>)
    ensures var s := value.OrElse("");
      ParseRecipients(value) == [] <==> forall k :: 0 <= k < |s| ==> s[k] == ',' || IsWhitespace(s[k])
  {
    var s := value.OrElse("");
    var parts := Split(s, ',');
    var trimmed := TrimAll(parts);
    NonEmptyEmptyIff(trimmed);
    forall i | 0 <= i < |parts| ensures trimmed[i] == "" <==> AllWhitespace(parts[i]) {
      TrimEmptyIff(parts[i]);
    }
    SplitAllWhitespace(s, ',');
  }

  // ---- sendReportEmail ---------------------------------------------------------------------------

  /** A byte of the workbook file. */
  newtype byte = x: int | 0 <= x < 256

  /** One attachment: its file name and its content. */
  datatype Attachment = Attachment(filename: string, content: seq<byte>)

  /** The message handed to `resend.emails.send`. `react` stands for the React element of the
      body, which is passed through untouched. */
  datatype EmailRequest = EmailRequest(
    from: Option<string>,
    to: seq<string>,
    subject: string,
    react: string,
    attachments: seq<Attachment>)

  /** What `resend.emails.send` resolves to: its `data` (the message id) and `error` members. */
  datatype SendResponse = SendResponse(data: Option<string>, error: Option<string>)

  /** How a call into the service ends: it resolves to a response, or it throws. */
  datatype SendOutcome = Resolved(response: SendResponse) | Threw(message: string)

  /** The message `sendReportEmail` throws when no recipient is configured. */
  const NoRecipientsMessage := "EMAIL_TO is empty"

  /** Every message in the outbox names at least one recipient, each a clean address. */
  predicate WellAddressed(request: EmailRequest)
  {
    && request.to != []
    && forall i :: 0 <= i < |request.to| ==> request.to[i] != "" && IsTrimmed(request.to[i])
  }

  /** Every message of `sent` is well addressed. */
  predicate AllWellAddressed(sent: seq<EmailRequest>)
  {
    forall i :: 0 <= i < |sent| ==> WellAddressed(sent[i])
  }

  /** Sending a well-addressed message keeps the outbox well addressed. */
  lemma AppendWellAddressed(sent: seq<EmailRequest>, request: EmailRequest)
    requires AllWellAddressed(sent) && WellAddressed(request)
    ensures AllWellAddressed(sent + [request])
  {
    var after := sent + [request];
    assert forall i :: 0 <= i < |sent| ==> after[i] == sent[i];
  }

  /** The messages handed to the mail service so far and the errors written with `console.error`. */
  class Outbox {
    var sent: seq<EmailRequest>
    var errorLog: seq<string>

    constructor ()
      ensures sent == [] && errorLog == []
    {
      sent := [];
      errorLog := [];
    }

    predicate Valid()
      reads this
    {
      AllWellAddressed(sent)
    }
  }

  /** `sendReportEmail(opts)` with `EMAIL_TO = emailTo` and `EMAIL_FROM = emailFrom`; `service` is
      how the single call to the mail service ends. With no recipient it throws "EMAIL_TO is
      empty", logs it and sends nothing. Otherwise it hands the service exactly one message, to
      the parsed recipients, with the workbook as its only attachment, and returns what the
      service resolves to; an exception from the service is logged and rethrown. */
  method SendReportEmail(outbox: Outbox, emailTo: Option<string>, emailFrom: Option<string>,
                         subject: string, react: string, filename: string, attachment: seq<byte>,
                         service: SendOutcome)
    returns (r: SendOutcome)
    requires outbox.Valid()
    modifies outbox
    ensures outbox.Valid()
    ensures ParseRecipients(emailTo) == [] ==>
              && r == Threw(NoRecipientsMessage)
              && outbox.sent == old(outbox.sent)
              && outbox.errorLog == old(outbox.errorLog) + [NoRecipientsMessage]
    ensures ParseRecipients(emailTo) != [] ==>
              && r == service
              && outbox.sent == old(outbox.sent) + [EmailRequest(emailFrom, ParseRecipients(emailTo), subject, react,
                                                                 [Attachment(filename, attachment)])]
              && outbox.errorLog == old(outbox.errorLog) + (if service.Threw? then [service.message] else [])
  {
    var to := ParseRecipients(emailTo);
    if |to| == 0 {
      r := Threw(NoRecipientsMessage);
    } else {
      var request := EmailRequest(emailFrom, to, subject, react, [Attachment(filename, attachment)]);
      AppendWellAddressed(outbox.sent, request);
      outbox.sent := outbox.sent + [request];
      r := service;
    }
    if r.Threw? {
      outbox.errorLog := outbox.errorLog + [r.message];
    }
  }
}
