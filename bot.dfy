/** The WhatsApp bot service: its phone normaliser, the readiness flag the
    client's events switch, and the decision order of its `/notify`
    endpoint. The WhatsApp client itself (lookup and sending) is given as
    the outcomes of its two calls. */
module Bot {

  import opened Js
  import opened Text
  import Notify

  /** `normalizeToE164DigitsBR`: only the digits, with the country code 55
      put in front unless they already start with it. */
  function NormalizeDigitsBR(raw: string): (r: string)
    ensures r == "" <==> KeepDigits(raw) == ""
    ensures r != "" ==> StartsWith(r, "55")
  {
    var digits := KeepDigits(raw);
    if digits == "" then ""
    else if StartsWith(digits, "55") then digits
    else "55" + digits
  }

  /** Empty exactly when there are no digits; otherwise only digits, starting
      with 55, and either the input's digits unchanged (when they already
      start with 55) or those digits after a new 55. */
  lemma NormalizeDigitsShape(raw: string)
    ensures NormalizeDigitsBR(raw) == "" <==> KeepDigits(raw) == ""
    ensures AllDigits(NormalizeDigitsBR(raw))
    ensures NormalizeDigitsBR(raw) != "" ==> StartsWith(NormalizeDigitsBR(raw), "55")
    ensures StartsWith(KeepDigits(raw), "55") ==> NormalizeDigitsBR(raw) == KeepDigits(raw)
    ensures KeepDigits(raw) != "" && !StartsWith(KeepDigits(raw), "55") ==>
      NormalizeDigitsBR(raw) == "55" + KeepDigits(raw) && |NormalizeDigitsBR(raw)| == |KeepDigits(raw)| + 2
  {
    var d := KeepDigits(raw);
    var r := NormalizeDigitsBR(raw);
    if d != "" && !StartsWith(d, "55") {
      assert r == "55" + d;
      assert forall i :: 2 <= i < |r| ==> r[i] == d[i - 2];
    }
  }

  /** Normalising twice is normalising once. */
  lemma NormalizeDigitsIdempotent(raw: string)
    ensures NormalizeDigitsBR(NormalizeDigitsBR(raw)) == NormalizeDigitsBR(raw)
  {
    var r := NormalizeDigitsBR(raw);
    NormalizeDigitsShape(raw);
    KeepDigitsOfDigits(r);
  }

  /** The international forms the function's documentation names,
      `+55…` and `55…`, give the same digits, unchanged. */
  lemma NormalizeDigitsInternational(d: string)
    requires AllDigits(d) && StartsWith(d, "55")
    ensures NormalizeDigitsBR("+" + d) == d
    ensures NormalizeDigitsBR(d) == d
  {
    KeepDigitsOfDigits(d);
    KeepDigitsAppend("+", d);
    assert KeepDigits("+") == "";
  }

  /** The local form the documentation names, `(32) 9…-…`, gets the country
      code in front of its digits. */
  lemma NormalizeDigitsLocal(area: string, first: string, last: string)
    requires AllDigits(area) && AllDigits(first) && AllDigits(last)
    requires area != "" && area[0] != '5'
    ensures NormalizeDigitsBR("(" + area + ") " + first + "-" + last) == "55" + area + first + last
  {
    var p1, p2, p3 := "(" + area, ") " + first, "-" + last;
    assert "(" + area + ") " + first + "-" + last == p1 + (p2 + p3);
    assert KeepDigits("(") == "" && KeepDigits(") ") == "" && KeepDigits("-") == "";
    PunctThenDigits("(", area);
    PunctThenDigits(") ", first);
    PunctThenDigits("-", last);
    KeepDigitsAppend(p2, p3);
    KeepDigitsAppend(p1, p2 + p3);
    assert KeepDigits(p1 + (p2 + p3)) == area + (first + last);
    assert (area + (first + last))[0] == area[0];
  }

  /** Punctuation without digits followed by digits leaves just the digits. */
  lemma PunctThenDigits(p: string, d: string)
    requires KeepDigits(p) == "" && AllDigits(d)
    ensures KeepDigits(p + d) == d
  {
    KeepDigitsAppend(p, d);
    KeepDigitsOfDigits(d);
  }

  /** The number the backend sends to the bot arrives intact: the bot's
      normaliser applied to the backend's `+55…` result is that result
      without its `+`, and an empty number stays empty. */
  lemma BackendNumberSurvivesBot(raw: string)
    ensures var sent := Notify.NormalizePhoneBR(raw);
      NormalizeDigitsBR(sent) == (if sent == "" then "" else sent[1..])
  {
    var sent := Notify.NormalizePhoneBR(raw);
    Notify.NormalizePhoneShape(raw);
    if sent != "" {
      var body := sent[1..];
      assert sent == "+" + body;
      KeepDigitsAppend("+", body);
      KeepDigitsOfDigits(body);
      assert StartsWith(sent, "+55");
      assert body[..2] == "55";
    }
  }

  /** What the client's number lookup gives: a chat id (empty when the
      number is not on WhatsApp), or an exception. */
  datatype Lookup = Resolved(serialized: string) | LookupThrew

  /** The `/notify` replies, with their HTTP codes. */
  datatype Reply =
    | MissingToOrText   // 400
    | NotReady          // 503
    | InvalidTo         // 400
    | NotOnWhatsapp     // 404
    | SendFailed        // 500
    | Sent(chatId: string, text: string)

  function StatusCode(r: Reply): int {
    match r
    case MissingToOrText => 400
    case NotReady => 503
    case InvalidTo => 400
    case NotOnWhatsapp => 404
    case SendFailed => 500
    case Sent(_, _) => 200
  }

  /** The `/notify` decision: the body first, then readiness, then the
      number; `lookup` is the client's answer for a number and `sendThrows`
      whether sending threw. */
  function NotifyReply(ready: bool, to: Option<string>, text: Option<string>, lookup: string -> Lookup, sendThrows: bool): (r: Reply)
    ensures r == MissingToOrText <==> !Filled(to) || !Filled(text)
    ensures r == NotReady <==> Filled(to) && Filled(text) && !ready
    ensures r == InvalidTo <==> Filled(to) && Filled(text) && ready && KeepDigits(to.value) == ""
    ensures r.Sent? ==>
      && ready && r.text == text.value && r.chatId != ""
      && lookup(NormalizeDigitsBR(to.value)) == Resolved(r.chatId)
    ensures r == NotOnWhatsapp <==>
      Filled(to) && Filled(text) && ready && KeepDigits(to.value) != "" && lookup(NormalizeDigitsBR(to.value)) == Resolved("")
  {
    if !Filled(to) || !Filled(text) then MissingToOrText
    else if !ready then NotReady
    else
      var number := NormalizeDigitsBR(to.value);
      NormalizeDigitsShape(to.value);
      if number == "" then InvalidTo
      else match lookup(number)
        case LookupThrew => SendFailed
        case Resolved(id) =>
          if id == "" then NotOnWhatsapp
          else if sendThrows then SendFailed
          else Sent(id, text.value)
  }

  /** The bot's state: whether the WhatsApp client is ready. */
  class Bot {
    var isReady: bool

    /** At start-up the client is not ready. */
    constructor ()
      ensures !isReady
    {
      isReady := false;
    }

    /** The client's `ready` event. */
    method OnReady()
      modifies this
      ensures isReady
    {
      isReady := true;
    }

    /** The client's `auth_failure` event. */
    method OnAuthFailure()
      modifies this
      ensures !isReady
    {
      isReady := false;
    }

    /** The client's `disconnected` event. */
    method OnDisconnected()
      modifies this
      ensures !isReady
    {
      isReady := false;
    }

    /** GET `/health`. */
    method Health() returns (ok: bool, whatsappReady: bool)
      ensures ok && whatsappReady == isReady
    {
      ok := true;
      whatsappReady := isReady;
    }

    /** POST `/notify`: the reply for this request, given what the client
      answers; the readiness flag is only read. */
    method Notify(to: Option<string>, text: Option<string>, lookup: string -> Lookup, sendThrows: bool) returns (reply: Reply)
      ensures reply == NotifyReply(isReady, to, text, lookup, sendThrows)
    {
      if !Filled(to) || !Filled(text) {
        return MissingToOrText;
      }
      if !isReady {
        return NotReady;
      }
      var number := NormalizeDigitsBR(to.value);
      if number == "" {
        return InvalidTo;
      }
      var numberId := lookup(number);
      if numberId.LookupThrew? {
        return SendFailed;
      }
      if numberId.serialized == "" {
        return NotOnWhatsapp;
      }
      if sendThrows {
        return SendFailed;
      }
      reply := Sent(numberId.serialized, text.value);
    }
  }
}
