/** `GenericExceptionConverter`: turns any Java exception into the JSON text of a generic BLE error, built
    by a fixed series of `StringBuilder` appends in which only the exception's message varies. */
module ExceptionConverter {
  import opened Nullable
  import opened JsValues

  /** A Java exception, as far as the converter can see it: its class and `getMessage()`. */
  datatype JavaException = JavaException(className: string, message: Option<string>)

  /** `java.lang.StringBuilder`, reduced to the appends the converter uses. */
  class StringBuilder {
    var contents: string

    constructor ()
      ensures contents == ""
    {
      contents := "";
    }

    /** `append(String)` */
    method Append(s: string)
      modifies this
      ensures contents == old(contents) + s
    {
      contents := contents + s;
    }

    /** `append(int)`: writes the decimal form of `n`. Only non-negative numbers are modelled; the one call
        appends 0. */
    method AppendInt(n: nat)
      modifies this
      ensures contents == old(contents) + Decimal(n)
    {
      contents := contents + Decimal(n);
    }
  }

  function Digit(d: nat): (c: char)
    requires d < 10
    ensures '0' <= c <= '9' && c as int - '0' as int == d
  {
    ('0' as int + d) as char
  }

  /** The decimal numeral of `n`, without leading zeros. */
  function Decimal(n: nat): (s: string)
    ensures |s| >= 1 && forall i :: 0 <= i < |s| ==> '0' <= s[i] <= '9'
    ensures s[0] == '0' ==> s == "0"
    ensures n < 10 ==> s == [Digit(n)]
  {
    if n < 10 then [Digit(n)] else Decimal(n / 10) + [Digit(n % 10)]
  }

  /** The number a string of decimal digits denotes. */
  function NumeralValue(s: string): nat
    requires forall i :: 0 <= i < |s| ==> '0' <= s[i] <= '9'
    decreases |s|
  {
    if s == [] then 0 else NumeralValue(s[..|s| - 1]) * 10 + (s[|s| - 1] as int - '0' as int)
  }

  /** `append(int)` writes a numeral that reads back as the number appended. */
  lemma {:induction false} DecimalValue(n: nat)
    ensures NumeralValue(Decimal(n)) == n
    decreases n
  {
    if n >= 10 {
      DecimalValue(n / 10);
      var s := Decimal(n);
      assert s[..|s| - 1] == Decimal(n / 10);
    }
  }

  // ---------------------------------------------------------------------------------------------------
  // A reference rendering of flat JSON objects

  /** A JSON scalar as the converter writes it; a string is written between quotes exactly as given. */
  datatype Scalar = JsonNull | JsonInt(n: nat) | JsonStr(raw: string)

  /** One `"key":value` member; `spaced` puts a blank between the colon and the value. */
  datatype Member = Member(key: string, spaced: bool, value: Scalar)

  function ScalarText(v: Scalar): string {
    match v
    case JsonNull => "null"
    case JsonInt(n) => Decimal(n)
    case JsonStr(raw) => "\"" + raw + "\""
  }

  function MemberText(m: Member): string {
    "\"" + m.key + "\":" + (if m.spaced then " " else "") + ScalarText(m.value)
  }

  /** `{` followed by the members separated by commas: the text of an object still open for more members. */
  function Opening(ms: seq<Member>): string
    requires ms != []
    decreases |ms|
  {
    if |ms| == 1 then "{" + MemberText(ms[0])
    else Opening(ms[..|ms| - 1]) + "," + MemberText(ms[|ms| - 1])
  }

  /** The text of a JSON object with the members `ms`, in order. */
  function Render(ms: seq<Member>): string {
    if ms == [] then "{}" else Opening(ms) + "}"
  }

  function Keys(ms: seq<Member>): (keys: seq<string>)
    ensures |keys| == |ms| && forall i :: 0 <= i < |ms| ==> keys[i] == ms[i].key
  {
    seq(|ms|, i requires 0 <= i < |ms| => ms[i].key)
  }

  // ---------------------------------------------------------------------------------------------------
  // The generic error object

  /** The keys of a generic error, in the order the converter writes them. */
  const ErrorKeys: seq<string> := ["errorCode", "attErrorCode", "iosErrorCode", "androidErrorCode", "reason",
                                   "deviceID", "serviceUUID", "characteristicUUID", "descriptorUUID",
                                   "internalMessage"]

  /** `null` for a null string, the string between quotes otherwise (`appendString`'s two branches). */
  function NullableStr(value: Option<string>): Scalar {
    if value.None? then JsonNull else JsonStr(value.value)
  }

  /** The members of the generic error, with the reason written as `reason`. */
  function ErrorMembersWith(reason: Scalar): (ms: seq<Member>)
    ensures |ms| == 10 && ms[4] == Member("reason", false, reason)
  {
    [ Member("errorCode", false, JsonInt(0)),
      Member("attErrorCode", false, JsonNull),
      Member("iosErrorCode", true, JsonNull),
      Member("androidErrorCode", false, JsonNull),
      Member("reason", false, reason),
      Member("deviceID", false, JsonStr("null")),
      Member("serviceUUID", false, JsonStr("null")),
      Member("characteristicUUID", false, JsonStr("null")),
      Member("descriptorUUID", false, JsonStr("null")),
      Member("internalMessage", false, JsonStr("null")) ]
  }

  /** The members `toJs` writes for an exception whose message is `message`. */
  function ErrorMembers(message: Option<string>): (ms: seq<Member>)
    ensures |ms| == 10
  {
    ErrorMembersWith(NullableStr(message))
  }

  /** The generic error has the ten keys in the converter's order; the message is the reason, verbatim
      (`null` when there is none); the five identifiers are the string "null", never the literal `null`;
      only the `iosErrorCode` member has a blank after its colon. */
  lemma ErrorMembersShape(message: Option<string>)
    ensures Keys(ErrorMembers(message)) == ErrorKeys
    ensures ErrorMembers(message)[0].value == JsonInt(0)
    ensures forall i :: 1 <= i < 4 ==> ErrorMembers(message)[i].value == JsonNull
    ensures ErrorMembers(message)[4].value == (if message.None? then JsonNull else JsonStr(message.value))
    ensures forall i :: 5 <= i < 10 ==> ErrorMembers(message)[i].value == JsonStr("null")
    ensures forall i :: 0 <= i < 10 ==> (ErrorMembers(message)[i].spaced <==> i == 2)
  {
    var ms := ErrorMembers(message);
    assert Keys(ms) == ErrorKeys;
  }

  /** The text `toJs` returns for an exception whose message is `message`. */
  function ErrorJson(message: Option<string>): string {
    Render(ErrorMembers(message))
  }

  /** The four error codes, piece by piece as `toJs` appends them; the blank after the `iosErrorCode`
      colon is part of its single literal. */
  const Codes := "{" + "\"errorCode\":" + "0" + ",\"attErrorCode\":" + "null" + ",\"iosErrorCode\": null"
               + ",\"androidErrorCode\":" + "null"

  /** What `toJs` writes before the reason: the error codes and the reason's key. */
  const Prefix := Codes + ",\"" + "reason" + "\":"

  /** What `toJs` writes after the reason: five identifiers, each the quoted string "null", and the
      closing brace. */
  const Trailer := StringMemberText("deviceID", Some("null")) + StringMemberText("serviceUUID", Some("null"))
                 + StringMemberText("characteristicUUID", Some("null"))
                 + StringMemberText("descriptorUUID", Some("null"))
                 + StringMemberText("internalMessage", Some("null")) + "}"

  /** The reason as `appendString` writes it: the literal `null`, or the message between quotes. */
  function ReasonText(message: Option<string>): string {
    ScalarText(NullableStr(message))
  }

  /** Appending `a` then `b` to `c` is appending their concatenation `ab`. */
  lemma Regroup(c: string, a: string, b: string, ab: string)
    requires a + b == ab
    ensures c + a + b == c + ab
  {
    assert c + a + b == c + (a + b);
  }

  /** The six appends after the reason, one by one, add the same text as the trailer in one piece. */
  lemma RegroupTrailer(x: string, a: string, b: string, c: string, d: string, e: string, f: string)
    ensures x + a + b + c + d + e + f == x + (a + b + c + d + e + f)
  {
    Regroup(x, a, b, a + b);
    Regroup(x, a + b, c, a + b + c);
    Regroup(x, a + b + c, d, a + b + c + d);
    Regroup(x, a + b + c + d, e, a + b + c + d + e);
    Regroup(x, a + b + c + d + e, f, a + b + c + d + e + f);
  }

  lemma OpeningSnoc(ms: seq<Member>, i: nat)
    requires 0 < i < |ms|
    ensures Opening(ms[..i + 1]) == Opening(ms[..i]) + "," + MemberText(ms[i])
  {
    assert ms[..i + 1][..i] == ms[..i];
  }

  /** A member without a blank, preceded by its comma, is what `appendString` writes for it. */
  lemma CommaMemberText(m: Member)
    requires !m.spaced && !m.value.JsonInt?
    ensures "," + MemberText(m) == StringMemberText(m.key, if m.value.JsonNull? then None else Some(m.value.raw))
  {
    assert ",\"" == "," + "\"";
  }

  /** Each error code, rendered with what precedes it, is what `toJs` appends for it. */
  lemma ErrorCodeText()
    ensures "{" + MemberText(Member("errorCode", false, JsonInt(0))) == "{" + "\"errorCode\":" + "0"
  {
    assert Decimal(0) == "0";
  }

  lemma AttErrorCodeText()
    ensures "," + MemberText(Member("attErrorCode", false, JsonNull)) == ",\"attErrorCode\":" + "null"
  {
  }

  lemma IosErrorCodeText()
    ensures "," + MemberText(Member("iosErrorCode", true, JsonNull)) == ",\"iosErrorCode\": null"
  {
  }

  lemma AndroidErrorCodeText()
    ensures "," + MemberText(Member("androidErrorCode", false, JsonNull)) == ",\"androidErrorCode\":" + "null"
  {
  }

  /** The four pieces `appendString` writes, appended one by one, add the same text as its whole member. */
  lemma RegroupKey(x: string, a: string, k: string, b: string, v: string)
    ensures x + (a + k + b + v) == x + a + k + b + v
  {
    Regroup(x, a, k, a + k);
    Regroup(x, a + k, b, a + k + b);
    Regroup(x, a + k + b, v, a + k + b + v);
  }

  /** The first four members, rendered, are the error codes as `toJs` appends them. */
  lemma OpeningCodes(message: Option<string>)
    ensures Opening(ErrorMembers(message)[..4]) == Codes
  {
    var ms := ErrorMembers(message);
    ErrorCodeText();
    AttErrorCodeText();
    IosErrorCodeText();
    AndroidErrorCodeText();
    assert ms[..1] == [ms[0]];
    var h1 := "{" + "\"errorCode\":" + "0";
    assert Opening(ms[..1]) == h1;
    OpeningSnoc(ms, 1);
    Regroup(h1, ",", MemberText(ms[1]), ",\"attErrorCode\":" + "null");
    Regroup(h1, ",\"attErrorCode\":", "null", ",\"attErrorCode\":" + "null");
    var h2 := h1 + ",\"attErrorCode\":" + "null";
    OpeningSnoc(ms, 2);
    Regroup(h2, ",", MemberText(ms[2]), ",\"iosErrorCode\": null");
    var h3 := h2 + ",\"iosErrorCode\": null";
    OpeningSnoc(ms, 3);
    Regroup(h3, ",", MemberText(ms[3]), ",\"androidErrorCode\":" + "null");
    Regroup(h3, ",\"androidErrorCode\":", "null", ",\"androidErrorCode\":" + "null");
  }

  /** The first five members, rendered, are the fixed prefix and the reason. */
  lemma OpeningThroughReason(message: Option<string>)
    ensures Opening(ErrorMembers(message)[..5]) == Prefix + ReasonText(message)
  {
    var ms := ErrorMembers(message);
    var r := ReasonText(message);
    OpeningCodes(message);
    OpeningSnoc(ms, 4);
    CommaMemberText(ms[4]);
    assert StringMemberText("reason", message) == ",\"" + "reason" + "\":" + r;
    Regroup(Codes, ",", MemberText(ms[4]), StringMemberText("reason", message));
    RegroupKey(Codes, ",\"", "reason", "\":", r);
  }

  /** A member holding a string, without a blank, extends the rendering as `appendString` writes it. */
  lemma OpeningSnocString(ms: seq<Member>, i: nat, key: string)
    requires 0 < i < |ms| && ms[i] == Member(key, false, JsonStr("null"))
    ensures Opening(ms[..i + 1]) == Opening(ms[..i]) + StringMemberText(key, Some("null"))
  {
    OpeningSnoc(ms, i);
    CommaMemberText(ms[i]);
    Regroup(Opening(ms[..i]), ",", MemberText(ms[i]), StringMemberText(key, Some("null")));
  }

  /** The last five members: the identifiers, each holding the string "null". */
  lemma IdentifierMembers(message: Option<string>)
    ensures ErrorMembers(message)[5] == Member("deviceID", false, JsonStr("null"))
    ensures ErrorMembers(message)[6] == Member("serviceUUID", false, JsonStr("null"))
    ensures ErrorMembers(message)[7] == Member("characteristicUUID", false, JsonStr("null"))
    ensures ErrorMembers(message)[8] == Member("descriptorUUID", false, JsonStr("null"))
    ensures ErrorMembers(message)[9] == Member("internalMessage", false, JsonStr("null"))
  {
  }

  /** Two string members in a row extend the rendering by what `appendString` writes for each. */
  lemma OpeningSnocStrings(ms: seq<Member>, i: nat, ka: string, kb: string)
    requires 0 < i && i + 1 < |ms|
    requires ms[i] == Member(ka, false, JsonStr("null")) && ms[i + 1] == Member(kb, false, JsonStr("null"))
    ensures Opening(ms[..i + 2]) == Opening(ms[..i]) + StringMemberText(ka, Some("null")) + StringMemberText(kb, Some("null"))
  {
    OpeningSnocString(ms, i, ka);
    OpeningSnocString(ms, i + 1, kb);
  }

  /** Five string members after the first five extend the rendering as `appendString` writes them. */
  lemma OpeningLastFive(ms: seq<Member>, k5: string, k6: string, k7: string, k8: string, k9: string)
    requires |ms| == 10
    requires ms[5] == Member(k5, false, JsonStr("null")) && ms[6] == Member(k6, false, JsonStr("null"))
    requires ms[7] == Member(k7, false, JsonStr("null")) && ms[8] == Member(k8, false, JsonStr("null"))
    requires ms[9] == Member(k9, false, JsonStr("null"))
    ensures Opening(ms[..10]) == Opening(ms[..5]) + StringMemberText(k5, Some("null")) + StringMemberText(k6, Some("null"))
                           + StringMemberText(k7, Some("null")) + StringMemberText(k8, Some("null"))
                           + StringMemberText(k9, Some("null"))
  {
    OpeningSnocStrings(ms, 5, k5, k6);
    OpeningSnocStrings(ms, 7, k7, k8);
    OpeningSnocString(ms, 9, k9);
  }

  /** The last five members follow, each as `appendString` writes it. */
  lemma OpeningAfterReason(message: Option<string>)
    ensures Opening(ErrorMembers(message)) ==
      Opening(ErrorMembers(message)[..5]) + StringMemberText("deviceID", Some("null"))
      + StringMemberText("serviceUUID", Some("null")) + StringMemberText("characteristicUUID", Some("null"))
      + StringMemberText("descriptorUUID", Some("null")) + StringMemberText("internalMessage", Some("null"))
  {
    var ms := ErrorMembers(message);
    IdentifierMembers(message);
    OpeningLastFive(ms, "deviceID", "serviceUUID", "characteristicUUID", "descriptorUUID", "internalMessage");
    assert ms[..10] == ms;
  }

  /** The whole text of a generic error: only the reason depends on the exception. */
  lemma ErrorJsonText(message: Option<string>)
    ensures ErrorJson(message) == Prefix + ReasonText(message) + Trailer
  {
    OpeningThroughReason(message);
    OpeningAfterReason(message);
    RegroupTrailer(Prefix + ReasonText(message), StringMemberText("deviceID", Some("null")),
                   StringMemberText("serviceUUID", Some("null")), StringMemberText("characteristicUUID", Some("null")),
                   StringMemberText("descriptorUUID", Some("null")), StringMemberText("internalMessage", Some("null")),
                   "}");
  }

  /** A text made of `p`, `r` and `t` gives back each part by position. */
  lemma SplitAt(p: string, r: string, t: string)
    ensures (p + r + t)[..|p|] == p
    ensures (p + r + t)[|p|..|p + r + t| - |t|] == r
    ensures t != [] ==> (p + r + t)[|p + r + t| - 1] == t[|t| - 1]
  {
    assert p + r + t == p + (r + t);
  }

  /** The text starts with the four error codes (the `iosErrorCode` value preceded by a blank) and the
      reason's key, and ends with the closing brace. */
  lemma ErrorJsonFrame(message: Option<string>)
    ensures |ErrorJson(message)| > |Prefix| && ErrorJson(message)[..|Prefix|] == Prefix
    ensures ErrorJson(message)[|ErrorJson(message)| - 1] == '}'
  {
    ErrorJsonText(message);
    SplitAt(Prefix, ReasonText(message), Trailer);
  }

  /** The reason read back from a generic error text: what lies between the fixed text before it and
      the fixed text after it, `None` for the literal `null` and the text inside the quotes otherwise. */
  function ReasonOf(json: string): Option<Option<string>> {
    if |json| < |Prefix| + |Trailer| then None
    else
      var text := json[|Prefix|..|json| - |Trailer|];
      if text == "null" then Some(None)
      else if |text| >= 2 && text[0] == '"' && text[|text| - 1] == '"' then Some(Some(text[1..|text| - 1]))
      else None
  }

  /** Round trip: the exception's message, null or not, can be read back from the text `toJs` makes of
      it, even when it contains quotes. */
  lemma ReasonRecovered(message: Option<string>)
    ensures ReasonOf(ErrorJson(message)) == Some(message)
  {
    ErrorJsonText(message);
    var json := ErrorJson(message);
    var text := ReasonText(message);
    SplitAt(Prefix, text, Trailer);
    if message.Some? {
      assert text[1..|text| - 1] == message.value;
    }
  }

  /** Different messages give different texts: in particular a null message (written `null`) and the
      message "null" (written `"null"`) are told apart. */
  lemma ErrorJsonInjective(m1: Option<string>, m2: Option<string>)
    ensures ErrorJson(m1) == ErrorJson(m2) ==> m1 == m2
  {
    ReasonRecovered(m1);
    ReasonRecovered(m2);
  }

  // ---------------------------------------------------------------------------------------------------
  // The converter's methods

  /** What `appendString` writes for one member. */
  function StringMemberText(key: string, value: Option<string>): string {
    ",\"" + key + "\":" + (if value.None? then "null" else "\"" + value.value + "\"")
  }

  /** `appendString(stringBuilder, key, value)`: appends `,"key":` and then `null` or `"value"`; what was
      there before stays as it was, in front. */
  method AppendString(sb: StringBuilder, key: string, value: Option<string>)
    modifies sb
    ensures sb.contents == old(sb.contents) + StringMemberText(key, value)
    ensures sb.contents[..|old(sb.contents)|] == old(sb.contents)
  {
    sb.Append(",\"");
    sb.Append(key);
    sb.Append("\":");
    if value.None? {
      sb.Append("null");
    } else {
      sb.Append("\"");
      sb.Append(value.value);
      sb.Append("\"");
    }
  }

  /** `toJs(error)`: the generic error text for `error`. */
  method ToJs(error: JavaException) returns (json: string)
    ensures json == ErrorJson(error.message)
    ensures ReasonOf(json) == Some(error.message)
  {
    var sb := new StringBuilder();
    sb.Append("{");
    assert sb.contents == "{";

    sb.Append("\"errorCode\":");
    sb.AppendInt(0);
    assert Decimal(0) == "0";

    sb.Append(",\"attErrorCode\":");
    sb.Append("null");

    sb.Append(",\"iosErrorCode\": null");

    sb.Append(",\"androidErrorCode\":");
    sb.Append("null");
    assert sb.contents == Codes;

    AppendString(sb, "reason", error.message);
    var r := ReasonText(error.message);
    RegroupKey(Codes, ",\"", "reason", "\":", r);
    var x := sb.contents;

    AppendString(sb, "deviceID", Some("null"));
    AppendString(sb, "serviceUUID", Some("null"));
    AppendString(sb, "characteristicUUID", Some("null"));
    AppendString(sb, "descriptorUUID", Some("null"));
    AppendString(sb, "internalMessage", Some("null"));

    sb.Append("}");

    json := sb.contents;
    RegroupTrailer(x, StringMemberText("deviceID", Some("null")), StringMemberText("serviceUUID", Some("null")),
                   StringMemberText("characteristicUUID", Some("null")),
                   StringMemberText("descriptorUUID", Some("null")),
                   StringMemberText("internalMessage", Some("null")), "}");
    ErrorJsonText(error.message);
    ReasonRecovered(error.message);
  }

  /** `toJSCallback(error)`: a new two-element array `[toJs(error), null]`. */
  method ToJSCallback(error: JavaException) returns (args: WritableArray)
    ensures fresh(args)
    ensures args.elements == [JString(ErrorJson(error.message)), JNull]
  {
    args := new WritableArray();
    var json := ToJs(error);
    args.PushString(Some(json));
    args.PushNull();
  }
}
