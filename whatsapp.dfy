/** The backend's WhatsApp notifier: the status label, the Brazilian phone
    normaliser, the order message and the decision whether to call the
    webhook at all. */
module Notify {

  import opened Js
  import opened Domain
  import opened Text

  /** `statusLabel`: the Portuguese label of a status, compared as a string. */
  function StatusLabel(s: string): (r: string)
    ensures r != ""
    ensures r == "Cancelado" <==> s != "PENDING" && s != "IN_DELIVERY" && s != "DELIVERED"
  {
    if s == "PENDING" then "Pendente"
    else if s == "IN_DELIVERY" then "Em entrega"
    else if s == "DELIVERED" then "Entregue"
    else "Cancelado"
  }

  /** The four statuses get four different labels, and every other string is
      labelled as cancelled. */
  lemma StatusLabelsDistinct(a: Status, b: Status, s: string)
    ensures a != b ==> StatusLabel(a.Wire()) != StatusLabel(b.Wire())
    ensures ParseStatus(s).None? ==> StatusLabel(s) == "Cancelado"
  {
  }

  /** `normalizePhoneBR`: the digits of the number with a `+` in front, and
      `55` inserted when they do not already start with it. */
  function NormalizePhoneBR(raw: string): (r: string)
    ensures r == "" <==> KeepDigits(raw) == ""
    ensures r != "" ==> StartsWith(r, "+55")
  {
    var digits := KeepDigits(raw);
    if digits == "" then ""
    else if StartsWith(digits, "55") then
      assert ("+" + digits)[..3] == "+" + digits[..2];
      "+" + digits
    else if 10 <= |digits| <= 11 then "+55" + digits
    else "+55" + digits
  }

  /** Empty exactly when the input has no digits; otherwise `+`, the country
      code 55 and then nothing but digits, all the input's digits in order.
      The 10-11 digit branch gives what the fallback gives. */
  lemma NormalizePhoneShape(raw: string)
    ensures NormalizePhoneBR(raw) == "" <==> KeepDigits(raw) == ""
    ensures NormalizePhoneBR(raw) != "" ==>
      var d := KeepDigits(raw);
      && NormalizePhoneBR(raw) == "+" + (if StartsWith(d, "55") then d else "55" + d)
      && StartsWith(NormalizePhoneBR(raw), "+55")
      && AllDigits(NormalizePhoneBR(raw)[1..])
  {
    var d := KeepDigits(raw);
    if d != "" {
      var r := NormalizePhoneBR(raw);
      if StartsWith(d, "55") {
        assert r[1..] == d;
        assert r[..3] == "+" + d[..2];
      } else {
        assert r[1..] == "55" + d;
      }
    }
  }

  /** `n.toFixed(2).replace(".", ",")` for an amount in cents. */
  function DecimalComma(c: Cents): (r: string)
    ensures |r| >= 4
  {
    var a := if c < 0 then -c else c;
    (if c < 0 then "-" else "") + ToBase(a / 100, 10) + "," + [DigitChar(a % 100 / 10), DigitChar(a % 10)]
  }

  /** `R$ ` and the amount with two decimals and a decimal comma. */
  function Money(c: Cents): string {
    "R$ " + DecimalComma(c)
  }

  /** Reads back an amount written by `DecimalComma`. */
  function ParseDecimalComma(s: string): int {
    if |s| < 4 then 0
    else
      var neg := s[0] == '-';
      var whole := if neg then s[1..|s| - 3] else s[..|s| - 3];
      var v := FromBase(whole, 10) * 100 + DigitValue(s[|s| - 2]) * 10 + DigitValue(s[|s| - 1]);
      if neg then -v else v
  }

  /** Reading a sign, digits, a comma and two decimal digits. */
  lemma ParseDecimalCommaParts(neg: bool, w: string, d1: nat, d0: nat)
    requires w != [] && w[0] != '-'
    requires d1 < 10 && d0 < 10
    ensures var v := FromBase(w, 10) * 100 + d1 * 10 + d0;
      ParseDecimalComma((if neg then "-" else "") + w + "," + [DigitChar(d1), DigitChar(d0)]) == if neg then -v else v
  {
    var head := (if neg then "-" else "") + w;
    var tail := [',', DigitChar(d1), DigitChar(d0)];
    var s := head + tail;
    assert (if neg then "-" else "") + w + "," + [DigitChar(d1), DigitChar(d0)] == s;
    DigitRoundTrip(d1);
    DigitRoundTrip(d0);
    assert s[..|s| - 3] == head;
    assert s[|s| - 2] == DigitChar(d1) && s[|s| - 1] == DigitChar(d0);
    var whole := if neg then s[1..|s| - 3] else s[..|s| - 3];
    if neg {
      assert s[0] == '-';
      assert whole == head[1..] == w;
    } else {
      assert head == w;
      assert s[0] == w[0];
    }
    assert FromBase(whole, 10) == FromBase(w, 10);
    assert DigitValue(s[|s| - 2]) == d1 && DigitValue(s[|s| - 1]) == d0;
    var v := FromBase(w, 10) * 100 + d1 * 10 + d0;
    assert ParseDecimalComma(s) == if neg then -v else v;
  }

  /** The rendered amount loses nothing: the cents can be read back from it,
      so every amount gets its own text. */
  lemma MoneyRoundTrip(c: Cents)
    ensures ParseDecimalComma(DecimalComma(c)) == c
  {
    var a := if c < 0 then -c else c;
    var w := ToBase(a / 100, 10);
    ToBaseDigits(a / 100, 10);
    assert IsBaseDigit(w[0]);
    FromToBase(a / 100, 10);
    ParseDecimalCommaParts(c < 0, w, a % 100 / 10, a % 10);
    assert a == a / 100 * 100 + a % 100 / 10 * 10 + a % 10;
  }

  /** No rendered amount contains a line break. */
  lemma MoneyIsOneLine(c: Cents)
    ensures '\n' !in Money(c)
  {
    var a := if c < 0 then -c else c;
    ToBaseDigits(a / 100, 10);
  }

  const Title: string := "\U{1F6D2} *Trem do Bem*"
  const ItemsHeading: string := "\U{1F4E6} *Itens:*"

  /** One bullet line of the item list. */
  function Bullet(it: OrderItem): string {
    "\U{2022} " + it.name + " \U{2014} " + IntString(it.grams) + "g (" + Money(it.lineTotal) + ")"
  }

  function Bullets(items: seq<OrderItem>): (r: seq<string>)
    ensures |r| == |items|
    ensures forall k :: 0 <= k < |items| ==> r[k] == Bullet(items[k])
  {
    seq(|items|, k requires 0 <= k < |items| => Bullet(items[k]))
  }

  /** `items || "—"`: the bullet lines joined, or a dash for no items. */
  function ItemsBlock(items: seq<OrderItem>): string {
    var j := Join(Bullets(items), "\n");
    if j == "" then "\U{2014}" else j
  }

  function OrderLine(o: Order): string { "Pedido: *" + o.id + "*" }
  function StatusLine(o: Order): string { "Status: *" + StatusLabel(o.status.Wire()) + "*" }
  function SubtotalLine(o: Order): string { "\U{1F4B0} *Subtotal:* " + Money(o.subtotal) }
  function AddressLine(o: Order): string { "\U{1F4CD} *Entrega:* " + o.customer.address }

  /** The reference line, present only for a non-empty reference. */
  function ReferenceLines(o: Order): seq<string> {
    if Filled(o.customer.reference) then ["\U{1F9ED} *Ref:* " + o.customer.reference.value] else []
  }

  /** The message template before `filter(Boolean)`: `None` is `null`, and
      the three `""` entries are the blank separators. */
  function Template(o: Order): seq<Option<string>> {
    [Some(Title), Some(OrderLine(o)), Some(StatusLine(o)), Some(""), Some(ItemsHeading), Some(ItemsBlock(o.items)),
     Some(""), Some(SubtotalLine(o)), Some(""), Some(AddressLine(o))]
    + (if Filled(o.customer.reference) then [Some(ReferenceLines(o)[0])] else [None])
  }

  /** What `filter(Boolean)` keeps of one entry: a filled line, and nothing
      of `null` or `""`. */
  function Kept(x: Option<string>): seq<string> {
    if x.Some? && x.value != "" then [x.value] else []
  }

  /** `filter(Boolean)` on the template: drops `null` and `""`. */
  function KeepTruthy(xs: seq<Option<string>>): seq<string> {
    if xs == [] then [] else Kept(xs[0]) + KeepTruthy(xs[1..])
  }

  /** `filter(Boolean)` keeps no empty line, and no more lines than it was
      given. */
  lemma {:induction false} KeepTruthyNonEmpty(xs: seq<Option<string>>)
    ensures |KeepTruthy(xs)| <= |xs|
    ensures forall k :: 0 <= k < |KeepTruthy(xs)| ==> KeepTruthy(xs)[k] != ""
  {
    if xs != [] {
      KeepTruthyNonEmpty(xs[1..]);
    }
  }

  /** `buildMessage`. */
  function BuildMessage(o: Order): (r: string)
    ensures r == Join(MessageLines(o), "\n")
  {
    MessageIsJoinedLines(o);
    Join(KeepTruthy(Template(o)), "\n")
  }

  /** The lines the message consists of, in order. */
  function MessageLines(o: Order): seq<string> {
    [Title, OrderLine(o), StatusLine(o), ItemsHeading]
    + (if o.items == [] then ["\U{2014}"] else Bullets(o.items))
    + [SubtotalLine(o), AddressLine(o)]
    + ReferenceLines(o)
  }

  /** The item block is a dash exactly when there are no items. */
  lemma ItemsBlockDash(items: seq<OrderItem>)
    ensures ItemsBlock(items) == "\U{2014}" <==> items == []
    ensures ItemsBlock(items) != ""
  {
    if items != [] {
      var b := Bullets(items);
      assert Join(b, "\n")[0] == b[0][0] == '\U{2022}';
    }
  }

  /** `filter(Boolean)` of a concatenation is the concatenation of the
      filtered parts. */
  lemma {:induction false} KeepTruthyAppend(a: seq<Option<string>>, b: seq<Option<string>>)
    ensures KeepTruthy(a + b) == KeepTruthy(a) + KeepTruthy(b)
    decreases |a|
  {
    if a != [] {
      assert (a + b)[0] == a[0];
      assert (a + b)[1..] == a[1..] + b;
      KeepTruthyAppend(a[1..], b);
    } else {
      assert a + b == b;
    }
  }

  lemma KeepTruthyCons(x: Option<string>, rest: seq<Option<string>>)
    ensures KeepTruthy([x] + rest) == Kept(x) + KeepTruthy(rest)
  {
    assert ([x] + rest)[1..] == rest;
  }

  lemma KeepTruthy3(a: Option<string>, b: Option<string>, c: Option<string>)
    ensures KeepTruthy([a, b, c]) == Kept(a) + Kept(b) + Kept(c)
  {
    KeepTruthyCons(c, []);
    assert [b, c] == [b] + [c];
    KeepTruthyCons(b, [c]);
    assert [a, b, c] == [a] + [b, c];
    KeepTruthyCons(a, [b, c]);
  }

  lemma KeepTruthy4(a: Option<string>, b: Option<string>, c: Option<string>, d: Option<string>)
    ensures KeepTruthy([a, b, c, d]) == Kept(a) + Kept(b) + Kept(c) + Kept(d)
  {
    KeepTruthy3(b, c, d);
    assert [a, b, c, d] == [a] + [b, c, d];
    KeepTruthyCons(a, [b, c, d]);
  }

  /** `filter(Boolean)` on a template of that shape drops the three blank
      separators and an absent last line, and keeps every other line. */
  lemma KeepTruthyShape(l1: string, l2: string, l3: string, l4: string, l5: string, l6: string, l7: string, last: Option<string>)
    requires l1 != "" && l2 != "" && l3 != "" && l4 != "" && l5 != "" && l6 != "" && l7 != ""
    ensures KeepTruthy([Some(l1), Some(l2), Some(l3), Some(""), Some(l4), Some(l5), Some(""), Some(l6), Some(""), Some(l7)] + [last])
      == [l1, l2, l3, l4, l5, l6, l7] + Kept(last)
  {
    var blank: Option<string> := Some("");
    var a := [Some(l1), Some(l2), Some(l3), blank];
    var b := [Some(l4), Some(l5), blank];
    var c := [Some(l6), blank, Some(l7), last];
    KeepTruthy4(Some(l1), Some(l2), Some(l3), blank);
    KeepTruthy3(Some(l4), Some(l5), blank);
    KeepTruthy4(Some(l6), blank, Some(l7), last);
    KeepTruthyAppend(b, c);
    KeepTruthyAppend(a, b + c);
    assert [Some(l1), Some(l2), Some(l3), Some(""), Some(l4), Some(l5), Some(""), Some(l6), Some(""), Some(l7)] + [last] == a + (b + c);
  }

  /** `filter(Boolean)` drops the three blank separators and the absent
      reference, and keeps every other line of the template. */
  lemma TemplateKept(o: Order)
    ensures KeepTruthy(Template(o))
      == [Title, OrderLine(o), StatusLine(o), ItemsHeading, ItemsBlock(o.items), SubtotalLine(o), AddressLine(o)]
         + ReferenceLines(o)
  {
    ItemsBlockDash(o.items);
    var last := if Filled(o.customer.reference) then Some(ReferenceLines(o)[0]) else None;
    KeepTruthyShape(Title, OrderLine(o), StatusLine(o), ItemsHeading, ItemsBlock(o.items), SubtotalLine(o), AddressLine(o), last);
  }

  /** A bullet has no line break when the item name has none. */
  lemma BulletIsOneLine(it: OrderItem)
    requires '\n' !in it.name
    ensures '\n' !in Bullet(it)
  {
    MoneyIsOneLine(it.lineTotal);
    var a := if it.grams < 0 then -it.grams else it.grams;
    ToBaseDigits(a, 10);
    var g := IntString(it.grams);
    assert '\n' !in g;
  }

  /** Joining a template whose fifth line is itself a joined block reads as
      joining the template with the block's lines in its place. */
  lemma JoinTemplateShape(t1: string, t2: string, t3: string, t4: string, block: seq<string>, t6: string, t7: string, refs: seq<string>)
    requires |block| >= 1
    ensures Join([t1, t2, t3, t4, Join(block, "\n"), t6, t7] + refs, "\n")
      == Join([t1, t2, t3, t4] + block + [t6, t7] + refs, "\n")
  {
    var head := [t1, t2, t3, t4];
    var tail := [t6, t7] + refs;
    JoinFlatten(head, block, tail, "\n");
    assert [t1, t2, t3, t4, Join(block, "\n"), t6, t7] + refs == head + [Join(block, "\n")] + tail;
    assert head + block + [t6, t7] + refs == head + block + tail;
  }

  /** The kept template lines, joined with line breaks, are the message
      lines joined with line breaks. */
  lemma MessageIsJoinedLines(o: Order)
    ensures Join(KeepTruthy(Template(o)), "\n") == Join(MessageLines(o), "\n")
  {
    var block := if o.items == [] then ["\U{2014}"] else Bullets(o.items);
    TemplateKept(o);
    assert ItemsBlock(o.items) == Join(block, "\n");
    JoinTemplateShape(Title, OrderLine(o), StatusLine(o), ItemsHeading, block, SubtotalLine(o), AddressLine(o), ReferenceLines(o));
  }

  /** No line holds a line break, and none is empty. */
  predicate AreLines(ls: seq<string>) {
    forall k :: 0 <= k < |ls| ==> '\n' !in ls[k] && ls[k] != ""
  }

  lemma AreLinesAppend(a: seq<string>, b: seq<string>)
    requires AreLines(a) && AreLines(b)
    ensures AreLines(a + b)
  {
    forall k | 0 <= k < |a + b|
      ensures '\n' !in (a + b)[k] && (a + b)[k] != ""
    {
      if k >= |a| {
        assert (a + b)[k] == b[k - |a|];
      }
    }
  }

  lemma HeadAreLines(o: Order)
    requires '\n' !in o.id
    ensures AreLines([Title, OrderLine(o), StatusLine(o), ItemsHeading])
  {
    assert '\n' !in Title;
    assert '\n' !in ItemsHeading;
    assert '\n' !in StatusLabel(o.status.Wire());
    assert '\n' !in OrderLine(o);
    assert '\n' !in StatusLine(o);
  }

  lemma TailAreLines(o: Order)
    requires '\n' !in o.customer.address
    requires Filled(o.customer.reference) ==> '\n' !in o.customer.reference.value
    ensures AreLines([SubtotalLine(o), AddressLine(o)]) && AreLines(ReferenceLines(o))
  {
    MoneyIsOneLine(o.subtotal);
    assert '\n' !in SubtotalLine(o);
    assert '\n' !in AddressLine(o);
  }

  lemma BlockAreLines(items: seq<OrderItem>)
    requires forall k :: 0 <= k < |items| ==> '\n' !in items[k].name
    ensures AreLines(if items == [] then ["\U{2014}"] else Bullets(items))
  {
    forall k | 0 <= k < |items| ensures '\n' !in Bullets(items)[k] {
      BulletIsOneLine(items[k]);
    }
  }

  /** Every line is non-empty, and none holds a line break when the order's
      own text holds none. */
  lemma MessageLinesAreLines(o: Order)
    requires '\n' !in o.id && '\n' !in o.customer.address
    requires Filled(o.customer.reference) ==> '\n' !in o.customer.reference.value
    requires forall k :: 0 <= k < |o.items| ==> '\n' !in o.items[k].name
    ensures AreLines(MessageLines(o))
  {
    var head := [Title, OrderLine(o), StatusLine(o), ItemsHeading];
    var block := if o.items == [] then ["\U{2014}"] else Bullets(o.items);
    var tail := [SubtotalLine(o), AddressLine(o)];
    HeadAreLines(o);
    BlockAreLines(o.items);
    TailAreLines(o);
    AreLinesAppend(head, block);
    AreLinesAppend(head + block, tail);
    AreLinesAppend(head + block + tail, ReferenceLines(o));
  }

  /** When the order's own text has no line breaks, splitting the message
      at line breaks gives exactly its lines: the blank separators are gone,
      there is one bullet per item in item order (or the dash), and the
      reference line is there exactly when a reference is. */
  lemma MessageSplitsIntoLines(o: Order)
    requires '\n' !in o.id && '\n' !in o.customer.address
    requires Filled(o.customer.reference) ==> '\n' !in o.customer.reference.value
    requires forall k :: 0 <= k < |o.items| ==> '\n' !in o.items[k].name
    ensures Split(BuildMessage(o), '\n') == MessageLines(o)
  {
    MessageIsJoinedLines(o);
    MessageLinesAreLines(o);
    SplitJoin(MessageLines(o), '\n');
  }

  /** The webhook settings: `WHATSAPP_ENABLED` and `WHATSAPP_WEBHOOK_URL`. */
  datatype Env = Env(enabled: Option<string>, url: Option<string>)

  /** What the webhook is sent. */
  datatype Delivery = Delivery(url: string, to: string, text: string, orderId: string, status: string)

  /** How a notification ended. None of them is an error for the caller: a
      failed request is logged and dropped. */
  datatype Outcome = SkippedDisabled | SkippedInvalidPhone | Posted(delivery: Delivery, failed: bool)

  /** `(WHATSAPP_ENABLED || "false").toLowerCase() === "true"`. */
  function Enabled(env: Env): (r: bool)
    ensures r ==> Filled(env.enabled) && |env.enabled.value| == 4
    ensures env.enabled == Some("true") ==> r
  {
    Lower(OrElse(env.enabled, "false")) == "true"
  }

  /** `notifyWhatsappOrderUpdate`: skip when disabled or without a url, skip
      when the phone has no digits, otherwise post; `fetchFails` is whether
      the request threw, which changes nothing but the log. */
  function NotifyOrderUpdate(env: Env, o: Order, fetchFails: bool): (r: Outcome)
    ensures r == SkippedDisabled <==> !Enabled(env) || !Filled(env.url)
    ensures r == SkippedInvalidPhone <==> Enabled(env) && Filled(env.url) && NormalizePhoneBR(o.customer.phone) == ""
    ensures r.Posted? ==>
      && r.delivery.url == env.url.value
      && r.delivery.to == NormalizePhoneBR(o.customer.phone) && StartsWith(r.delivery.to, "+55")
      && r.delivery.text == BuildMessage(o)
      && r.delivery.orderId == o.id && r.delivery.status == o.status.Wire()
  {
    var url := OrElse(env.url, "");
    var to := NormalizePhoneBR(o.customer.phone);
    var text := BuildMessage(o);
    NormalizePhoneShape(o.customer.phone);
    if !Enabled(env) || url == "" then SkippedDisabled
    else if to == "" then SkippedInvalidPhone
    else Posted(Delivery(url, to, text, o.id, o.status.Wire()), fetchFails)
  }

  /** Only the exact word "true", in any letter case, switches the notifier on;
      unset means off. */
  lemma EnabledExamples()
    ensures Enabled(Env(Some("TRUE"), None)) && Enabled(Env(Some("True"), None))
    ensures !Enabled(Env(None, None)) && !Enabled(Env(Some(""), None)) && !Enabled(Env(Some("1"), None))
  {
    assert Lower("TRUE") == "true";
    assert Lower("True") == "true";
    assert Lower("false") != "true";
  }
}
