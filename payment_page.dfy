/**
 * The viewers' payment page (src/pages/PaymentPage.jsx): an amount is
 * checked, an order id drawn, and a UPI pay link built and shown as a QR
 * code; "I Have Paid" resets the form.
 */
module PaymentPage {
  import opened Wrappers
  import opened Strings
  import opened Encoding
  import opened Sequences

  /** `STREAMER_UPI_ID`, the payee address. */
  const UpiId: string := "your-vpa@upi"

  /** `STREAMER_NAME`, the payee name. */
  const PayeeName: string := "Your Channel Name"

  /** The amount box holds typed text, or a number put there by a preset button. */
  datatype Amount = Typed(text: string) | Preset(value: int)

  /** The amount as it appears in the link, `${amount}`. */
  function AmountText(a: Amount): string {
    match a
    case Typed(t) => t
    case Preset(v) => IntToString(v)
  }

  /** The sign of a JavaScript number; `NaN` is `None` where it can appear. */
  datatype Sign = Negative | Zero | Positive

  predicate AllZeros(s: string) {
    forall i :: 0 <= i < |s| ==> s[i] == '0'
  }

  /** `x`, `o` or `b` (either case) after a leading `0` selects base 16, 8 or 2. */
  predicate IsRadixMark(c: char) {
    c == 'x' || c == 'X' || c == 'o' || c == 'O' || c == 'b' || c == 'B'
  }

  /** A digit of the base the mark selects. */
  predicate InRadix(mark: char, c: char) {
    if mark == 'x' || mark == 'X' then IsHexDigit(c)
    else if mark == 'o' || mark == 'O' then '0' <= c <= '7'
    else c == '0' || c == '1'
  }

  predicate IsPoint(c: char) {
    c == '.'
  }

  predicate IsExponentMark(c: char) {
    c == 'e' || c == 'E'
  }

  /** An exponent part: nothing, or `e`/`E`, an optional sign and at least one digit. */
  predicate IsExponent(e: string) {
    e == "" ||
    (|e| >= 2 && (e[0] == 'e' || e[0] == 'E') &&
     var d := if e[1] == '+' || e[1] == '-' then e[2..] else e[1..];
     |d| >= 1 && AllDigits(d))
  }

  /**
   * The digits of a mantissa with its point taken out: digits, an optional
   * point and more digits, at least one digit in all; `None` for anything else.
   */
  function MantissaDigits(m: string): (r: Option<string>)
    ensures r.Some? ==> |r.value| >= 1 && AllDigits(r.value)
  {
    match FindIndex(m, IsPoint)
    case None => if |m| >= 1 && AllDigits(m) then Some(m) else None
    case Some(k) =>
      if |m| >= 2 && AllDigits(m[..k]) && AllDigits(m[k + 1..]) then Some(m[..k] + m[k + 1..]) else None
  }

  /** Where the exponent part of a decimal literal starts: its first `e` or `E`, or the end. */
  function ExponentAt(body: string): (k: nat)
    ensures k <= |body|
  {
    match FindIndex(body, IsExponentMark)
    case None => |body|
    case Some(i) => i
  }

  /** The sign of an unsigned decimal literal or `Infinity`; `None` when the text is neither. */
  function UnsignedSign(body: string): Option<Sign> {
    if body == "Infinity" then Some(Positive)
    else
      var k := ExponentAt(body);
      if !IsExponent(body[k..]) then None
      else match MantissaDigits(body[..k])
        case None => None
        case Some(d) => Some(if AllZeros(d) then Zero else Positive)
  }

  /**
   * The sign of `Number(text)`: surrounding white space is ignored and the
   * empty text is 0; a `0x`/`0o`/`0b` integer is never negative; otherwise a
   * decimal literal with an optional sign, point and exponent, or
   * `Infinity`, is read; anything else is `NaN` (here `None`).
   */
  function NumberSign(s: string): Option<Sign> {
    var t := Trim(s);
    if t == "" then Some(Zero)
    else if |t| >= 2 && t[0] == '0' && IsRadixMark(t[1]) then RadixSign(t[1], t[2..])
    else SignedSign(t)
  }

  /** A `0x`/`0o`/`0b` integer: at least one digit of its base, and never negative. */
  function RadixSign(mark: char, ds: string): Option<Sign> {
    if |ds| >= 1 && forall i :: 0 <= i < |ds| ==> InRadix(mark, ds[i]) then
      Some(if AllZeros(ds) then Zero else Positive)
    else None
  }

  /** A decimal literal or `Infinity` after an optional `+` or `-`. */
  function SignedSign(t: string): Option<Sign>
    requires t != ""
  {
    var body := if t[0] == '-' || t[0] == '+' then t[1..] else t;
    match UnsignedSign(body)
    case None => None
    case Some(Zero) => Some(Zero)
    case Some(_) => Some(if t[0] == '-' then Negative else Positive)
  }

  /**
   * `!amount || amount <= 0` rejects the amount: the empty text, or a number
   * that is not positive. `NaN <= 0` is false, so text that is not a number
   * passes.
   */
  predicate Rejected(a: Amount) {
    match a
    case Typed(t) => t == "" || NumberSign(t) == Some(Negative) || NumberSign(t) == Some(Zero)
    case Preset(v) => v <= 0
  }

  /** A typed whole number is accepted exactly when it is positive. */
  lemma TypedNumberAccepted(n: nat)
    ensures !Rejected(Typed(NatToString(n))) <==> n > 0
  {
    var t := NatToString(n);
    DigitsNumber(t);
    NatToStringValue(n);
  }

  /** `Number` of a run of digits is 0 or positive as their decimal value is. */
  lemma DigitsNumber(t: string)
    requires |t| >= 1 && AllDigits(t)
    ensures NumberSign(t) == Some(if DigitsValue(t) == 0 then Zero else Positive)
  {
    DigitsText(t);
    UnsignedDigits(t);
    DigitsZeroIff(t);
  }

  /** A run of digits is read as an unsigned decimal. */
  lemma DigitsText(t: string)
    requires |t| >= 1 && AllDigits(t)
    ensures NumberSign(t) == UnsignedSign(t)
  {
    DigitIsPlain(t[0]);
    DigitIsPlain(t[|t| - 1]);
    if |t| >= 2 {
      DigitIsPlain(t[1]);
    }
    DecimalText(t);
  }

  /** A digit is neither white space, a sign nor a base mark. */
  lemma DigitIsPlain(c: char)
    requires IsDigit(c)
    ensures !IsSpace(c) && !IsRadixMark(c) && c != '-' && c != '+'
  {
  }

  /** A run of digits has the value 0 exactly when every digit is `0`. */
  lemma {:induction false} DigitsZeroIff(ds: string)
    requires AllDigits(ds)
    ensures DigitsValue(ds) == 0 <==> AllZeros(ds)
    decreases |ds|
  {
    if ds != [] {
      var init := ds[..|ds| - 1];
      DigitsZeroIff(init);
      assert forall i :: 0 <= i < |init| ==> init[i] == ds[i];
    }
  }

  /** A text without `e` or `E` has no exponent part. */
  lemma NoExponent(b: string)
    requires forall j :: 0 <= j < |b| ==> !IsExponentMark(b[j])
    ensures ExponentAt(b) == |b| && b[ExponentAt(b)..] == "" && b[..ExponentAt(b)] == b
  {
  }

  /** An unsigned run of digits is 0 or positive as its digits are. */
  lemma UnsignedDigits(d: string)
    requires |d| >= 1 && AllDigits(d)
    ensures UnsignedSign(d) == Some(if AllZeros(d) then Zero else Positive)
  {
    assert d != "Infinity" by {
      assert IsDigit(d[0]);
    }
    NoExponent(d);
    assert FindIndex(d, IsPoint).None?;
  }

  /** An unsigned decimal with a point is 0 or positive as its digits are. */
  lemma UnsignedPointed(ip: string, fp: string)
    requires AllDigits(ip) && AllDigits(fp) && |ip| + |fp| >= 1
    ensures UnsignedSign(ip + "." + fp) == Some(if AllZeros(ip + fp) then Zero else Positive)
  {
    var body := ip + "." + fp;
    assert body != "Infinity" by {
      assert |ip| >= 1 ==> body[0] == ip[0] && IsDigit(ip[0]);
      assert |ip| == 0 ==> body[0] == '.';
    }
    assert forall j :: 0 <= j < |body| ==> body[j] == '.' || IsDigit(body[j]);
    NoExponent(body);
    assert FindIndex(body, IsPoint) == Some(|ip|) by {
      assert body[|ip|] == '.';
      assert forall j :: 0 <= j < |ip| ==> body[j] == ip[j];
    }
    assert body[..|ip|] == ip && body[|ip| + 1..] == fp;
  }

  /** A trimmed text that does not start a `0x`/`0o`/`0b` integer is read as a signed decimal. */
  lemma DecimalText(t: string)
    requires t != "" && IsTrimmed(t)
    requires !(|t| >= 2 && t[0] == '0' && IsRadixMark(t[1]))
    ensures NumberSign(t) == SignedSign(t)
  {
    TrimmedIsOwnTrim(t);
  }

  /** A decimal with a point is 0 or positive as its digits are, and negated by a minus. */
  lemma DecimalNumber(ip: string, fp: string)
    requires |ip| >= 1 && AllDigits(ip) && AllDigits(fp)
    ensures NumberSign(ip + "." + fp) == Some(if AllZeros(ip + fp) then Zero else Positive)
    ensures NumberSign("-" + (ip + "." + fp)) == Some(if AllZeros(ip + fp) then Zero else Negative)
  {
    PointedText(ip, fp);
    UnsignedPointed(ip, fp);
    MinusSign(ip + "." + fp);
  }

  /** A minus in front of an unsigned literal negates it, and keeps zero. */
  lemma MinusSign(u: string)
    ensures UnsignedSign(u) == Some(Zero) ==> SignedSign("-" + u) == Some(Zero)
    ensures UnsignedSign(u) == Some(Positive) ==> SignedSign("-" + u) == Some(Negative)
  {
    var t := "-" + u;
    assert t[0] == '-' && t[1..] == u;
  }

  /** A decimal with a point, with or without a minus in front, is read as a signed decimal. */
  lemma PointedText(ip: string, fp: string)
    requires |ip| >= 1 && AllDigits(ip) && AllDigits(fp)
    ensures NumberSign(ip + "." + fp) == UnsignedSign(ip + "." + fp)
    ensures NumberSign("-" + (ip + "." + fp)) == SignedSign("-" + (ip + "." + fp))
  {
    var body := ip + "." + fp;
    var last := body[|body| - 1];
    assert last == '.' || IsDigit(last) by {
      if |fp| > 0 {
        assert last == fp[|fp| - 1];
      }
    }
    assert IsTrimmed(body) by {
      assert body[0] == ip[0];
    }
    assert !(|body| >= 2 && body[0] == '0' && IsRadixMark(body[1])) by {
      assert |ip| >= 2 ==> body[1] == ip[1];
      assert |ip| == 1 ==> body[1] == '.';
    }
    DecimalText(body);
    assert SignedSign(body) == UnsignedSign(body) by {
      assert body[0] == ip[0];
    }
    var neg := "-" + body;
    assert IsTrimmed(neg) by {
      assert neg[|neg| - 1] == last;
    }
    DecimalText(neg);
  }

  /** Any text that starts with a minus and reads as a number is rejected, `-0` included. */
  lemma MinusRejected(t: string)
    requires |t| >= 1 && t[0] == '-' && NumberSign(t).Some?
    ensures Rejected(Typed(t))
  {
    var r := Trim(t);
    assert TrimStart(t) == t;
    assert r != "" && r[0] == '-';
  }

  /** A decimal with a point passes the amount check exactly when one of its digits is not `0`; with a minus it never does. */
  lemma PointedAmountAccepted(ip: string, fp: string)
    requires |ip| >= 1 && AllDigits(ip) && AllDigits(fp)
    ensures !Rejected(Typed(ip + "." + fp)) <==> !AllZeros(ip + fp)
    ensures Rejected(Typed("-" + (ip + "." + fp)))
  {
    DecimalNumber(ip, fp);
  }

  /** `0x0` is read as the number 0 and rejected. */
  lemma HexZeroRejected()
    ensures Rejected(Typed("0x0"))
  {
    var t := "0x0";
    assert IsTrimmed(t);
    TrimmedIsOwnTrim(t);
    assert RadixSign('x', t[2..]) == Some(Zero) by {
      assert t[2..] == "0";
    }
  }

  /** Every preset button's amount is accepted. */
  lemma PresetsAccepted(v: int)
    requires v in [20, 50, 100, 500]
    ensures !Rejected(Preset(v))
  {
  }

  /** Digits have no white space to trim. */
  lemma TrimDigits(t: string)
    requires |t| >= 1 && AllDigits(t)
    ensures Trim(t) == t
  {
    assert !IsSpace(t[0]) && !IsSpace(t[|t| - 1]);
    TrimmedIsOwnTrim(t);
  }

  /** `ORD-<Date.now()>-<Math.floor(Math.random() * 1000)>` */
  function OrderId(now: nat, draw: nat): (r: string)
    requires draw < 1000
    ensures |r| > 4 && r[..4] == "ORD-" && '&' !in r
  {
    var r := "ORD-" + NatToString(now) + "-" + NatToString(draw);
    assert forall i :: 4 <= i < |r| ==> IsDigit(r[i]) || r[i] == '-';
    r
  }

  /** The order id reads back as the clock and the draw it was made from. */
  lemma OrderIdReadsBack(now: nat, draw: nat)
    requires draw < 1000
    ensures var parts := Split(OrderId(now, draw), '-');
            |parts| == 3 && parts[0] == "ORD" &&
            AllDigits(parts[1]) && DigitsValue(parts[1]) == now &&
            AllDigits(parts[2]) && DigitsValue(parts[2]) == draw
  {
    var a, b := NatToString(now), NatToString(draw);
    assert '-' !in a && '-' !in b by {
      assert forall i :: 0 <= i < |a| ==> a[i] != '-';
      assert forall i :: 0 <= i < |b| ==> b[i] != '-';
    }
    JoinCons(a, [b], "-");
    JoinCons("ORD", [a, b], "-");
    assert ["ORD"] + [a, b] == ["ORD", a, b];
    assert OrderId(now, draw) == Join(["ORD", a, b], "-");
    SplitJoin(["ORD", a, b], '-');
    NatToStringValue(now);
    NatToStringValue(draw);
  }

  /** `message || "Donation"` */
  function Note(message: string): (r: string)
    ensures r != ""
    ensures message != "" ==> r == message
    ensures message == "" ==> r == "Donation"
  {
    if message == "" then "Donation" else message
  }

  /**
   * The UPI deep link as the page writes it, for any payee address and
   * name:
   * `upi://pay?pa=<payee>&pn=<name>&am=<amount>&tn=<note>&tr=<order id>&cu=INR`,
   * name and note percent-encoded.
   */
  function PayLink(payee: string, name: string, amount: string, note: string, orderId: string): string {
    "upi://pay?" +
    ("pa=" + payee + "&" +
     ("pn=" + EncodeUriComponent(name) + "&" +
      ("am=" + amount + "&" +
       ("tn=" + EncodeUriComponent(note) + "&" +
        ("tr=" + orderId + "&" + "cu=INR")))))
  }

  /** The page's link, to the streamer's address and name, the note `message || "Donation"`. */
  function UpiLink(amount: Amount, message: string, orderId: string): string {
    PayLink(UpiId, PayeeName, AmountText(amount), Note(message), orderId)
  }

  /** The query fields of a pay link, in the order the link gives them. */
  function PayFields(payee: string, name: string, amount: string, note: string, orderId: string): seq<string> {
    ["pa=" + payee,
     "pn=" + EncodeUriComponent(name),
     "am=" + amount,
     "tn=" + EncodeUriComponent(note),
     "tr=" + orderId,
     "cu=INR"]
  }

  /** The query fields of the page's link. */
  function Fields(amount: Amount, message: string, orderId: string): seq<string> {
    PayFields(UpiId, PayeeName, AmountText(amount), Note(message), orderId)
  }

  /** A pay link is `upi://pay?` and the six fields joined by `&`. */
  lemma PayLinkIsJoin(payee: string, name: string, amount: string, note: string, orderId: string)
    ensures var link := PayLink(payee, name, amount, note, orderId);
            |link| >= 10 && link[..10] == "upi://pay?" &&
            link[10..] == Join(PayFields(payee, name, amount, note, orderId), "&")
  {
    var f := PayFields(payee, name, amount, note, orderId);
    JoinCons(f[4], [f[5]], "&");
    JoinCons(f[3], [f[4], f[5]], "&");
    JoinCons(f[2], [f[3], f[4], f[5]], "&");
    JoinCons(f[1], [f[2], f[3], f[4], f[5]], "&");
    JoinCons(f[0], [f[1], f[2], f[3], f[4], f[5]], "&");
    assert [f[0]] + [f[1], f[2], f[3], f[4], f[5]] == f;
  }

  /** What `encodeURIComponent` writes never holds `&`. */
  lemma EncodedHasNoAmpersand(s: string)
    ensures '&' !in EncodeUriComponent(s)
  {
    var e := EncodeUriComponent(s);
    assert forall i :: 0 <= i < |e| ==> e[i] != '&';
  }

  /**
   * Whatever goes into a pay link, as long as the payee address and the
   * amount hold no `&`, its query splits on `&` into exactly the six fields,
   * in order: an `&` in the name or the note cannot add or change a field,
   * and the note field decodes to the note's UTF-8 bytes.
   */
  lemma PayLinkFields(payee: string, name: string, amount: string, note: string, orderId: string)
    requires '&' !in payee && '&' !in amount && '&' !in orderId
    ensures var link := PayLink(payee, name, amount, note, orderId);
            |link| >= 10 && link[..10] == "upi://pay?" &&
            Split(link[10..], '&') == PayFields(payee, name, amount, note, orderId)
    ensures PercentBytes(EncodeUriComponent(note)) == Some(Utf8(note))
  {
    var f := PayFields(payee, name, amount, note, orderId);
    FieldsHaveNoAmpersand(payee, name, amount, note, orderId);
    SplitJoin(f, '&');
    PayLinkIsJoin(payee, name, amount, note, orderId);
    EncodeThenReadBytes(note);
  }

  /** No field holds `&`: the encoded ones never do, the others are required not to. */
  lemma FieldsHaveNoAmpersand(payee: string, name: string, amount: string, note: string, orderId: string)
    requires '&' !in payee && '&' !in amount && '&' !in orderId
    ensures var f := PayFields(payee, name, amount, note, orderId);
            |f| == 6 && forall i :: 0 <= i < |f| ==> '&' !in f[i]
  {
    var f := PayFields(payee, name, amount, note, orderId);
    EncodedHasNoAmpersand(name);
    EncodedHasNoAmpersand(note);
    assert '&' !in f[0] && '&' !in f[2] && '&' !in f[4] && '&' !in f[5];
  }

  /**
   * Whatever the donor writes as the message, the page's link splits into
   * its six fields, the note carrying the message byte for byte. The
   * amount box is a number input, whose value the browser keeps either
   * empty or a valid number, so its text never holds an `&`.
   */
  lemma LinkFields(amount: Amount, message: string, now: nat, draw: nat)
    requires draw < 1000 && '&' !in AmountText(amount)
    ensures var link := UpiLink(amount, message, OrderId(now, draw));
            |link| >= 10 && link[..10] == "upi://pay?" &&
            Split(link[10..], '&') == Fields(amount, message, OrderId(now, draw))
    ensures PercentBytes(EncodeUriComponent(Note(message))) == Some(Utf8(Note(message)))
  {
    assert '&' !in UpiId;
    PayLinkFields(UpiId, PayeeName, AmountText(amount), Note(message), OrderId(now, draw));
  }

  /** The QR image service's address for a link: `size=300x300` and the encoded link as `data`. */
  function QrUrl(link: string): string {
    "https://api.qrserver.com/v1/create-qr-code/?" + Join(["size=300x300", "data=" + EncodeUriComponent(link)], "&")
  }

  /** The QR address carries two query fields, the second the whole link, byte for byte. */
  lemma QrCarriesLink(link: string)
    ensures var u := QrUrl(link);
            |u| >= 44 && Split(u[44..], '&') == ["size=300x300", "data=" + EncodeUriComponent(link)]
    ensures PercentBytes(EncodeUriComponent(link)) == Some(Utf8(link))
  {
    EncodedHasNoAmpersand(link);
    assert '&' !in "size=300x300";
    SplitJoin(["size=300x300", "data=" + EncodeUriComponent(link)], '&');
    EncodeThenReadBytes(link);
  }

  // ------------------------------------------------------------ page state

  /** The form and the QR view. The donor's name is kept but sent nowhere. */
  datatype Page = Page(amount: Amount, name: string, message: string, showQr: bool, qrUrl: string, orderId: string)

  const InitialPage: Page := Page(Typed(""), "", "", false, "", "")

  const InvalidAmountAlert: string := "Please enter a valid amount"

  const PaidAlert: string := "Thanks! If the payment went through, the alert will pop up in a few seconds."

  /**
   * `generateQR`, given the clock's reading and the random draw: a rejected
   * amount only raises the browser alert; otherwise the order id is stored,
   * the QR address of the link set and the QR shown.
   */
  function GenerateQr(p: Page, now: nat, draw: nat): (r: (Page, Option<string>))
    requires draw < 1000
    ensures Rejected(p.amount) ==> r == (p, Some(InvalidAmountAlert))
    ensures !Rejected(p.amount) ==>
              r.1.None? && r.0.showQr && r.0.orderId == OrderId(now, draw) &&
              r.0.qrUrl == QrUrl(UpiLink(p.amount, p.message, r.0.orderId)) &&
              r.0.amount == p.amount && r.0.name == p.name && r.0.message == p.message
  {
    if Rejected(p.amount) then (p, Some(InvalidAmountAlert))
    else
      var id := OrderId(now, draw);
      (p.(orderId := id, qrUrl := QrUrl(UpiLink(p.amount, p.message, id)), showQr := true), None)
  }

  /** The donor's name has no effect on the link or the order. */
  lemma NameNotSent(p: Page, name: string, now: nat, draw: nat)
    requires draw < 1000
    ensures GenerateQr(p.(name := name), now, draw).0 == GenerateQr(p, now, draw).0.(name := name)
  {
  }

  /** "I Have Paid": the QR hidden, amount and message cleared, the name kept. */
  function Paid(p: Page): (r: (Page, string))
    ensures r.1 == PaidAlert
    ensures !r.0.showQr && r.0.amount == Typed("") && r.0.message == ""
    ensures r.0.name == p.name && r.0.qrUrl == p.qrUrl && r.0.orderId == p.orderId
  {
    (p.(showQr := false, amount := Typed(""), message := ""), PaidAlert)
  }

  /** "Cancel": back to the form, everything kept. */
  function Cancel(p: Page): (r: Page)
    ensures !r.showQr
    ensures r == p.(showQr := false)
  {
    p.(showQr := false)
  }

  /** After "I Have Paid" the form asks for a new amount before another link is made. */
  lemma PaidThenGenerateRefused(p: Page, now: nat, draw: nat)
    requires draw < 1000
    ensures var q := Paid(p).0;
            GenerateQr(q, now, draw) == (q, Some(InvalidAmountAlert)) && !q.showQr
  {
  }

  /** After "Cancel" the same amount and message make a new link with a new order id. */
  lemma CancelThenGenerateAgain(p: Page, now: nat, draw: nat)
    requires draw < 1000 && !Rejected(p.amount)
    ensures GenerateQr(Cancel(p), now, draw).0.qrUrl == QrUrl(UpiLink(p.amount, p.message, OrderId(now, draw)))
  {
  }
}
