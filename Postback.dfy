/**
 * The postback endpoint of bot.py: the `/webhook` handler turns whatever
 * key/value pairs the affiliate network sent into a fixed nine-field
 * record, with `'N/A'` for every missing field, and renders that record
 * as the HTML text of one Telegram notification. `/favicon.ico` answers
 * with an empty 204.
 */
module Postback {
  import opened Wrappers

  /** A postback's key/value pairs: the query arguments of a GET or the JSON object of a POST. */
  type Payload = map<string, string>

  /** What `.get(key, 'N/A')` yields for a missing key. */
  const Sentinel: string := "N/A"

  /** The nine fields of a conversion record, in the order the handler lists them. */
  const Fields: seq<string> :=
    ["offer_id", "sub_id_3", "goal", "status", "revenue", "currency", "sub_id_4", "sub_id_5", "conversion_date"]

  /** `data.get(key, 'N/A')` */
  function Lookup(data: Payload, key: string): string
  {
    if key in data then data[key] else Sentinel
  }

  /**
   * The `message_data` dictionary built by the handler: exactly the nine
   * fields, each taken from the input when present and `'N/A'` otherwise;
   * every other input key is dropped.
   */
  function Normalize(data: Payload): (record: Payload)
    ensures record.Keys == set k | k in Fields
    ensures forall k | k in Fields :: record[k] == if k in data then data[k] else Sentinel
  {
    map[
      "offer_id" := Lookup(data, "offer_id"),
      "sub_id_3" := Lookup(data, "sub_id_3"),
      "goal" := Lookup(data, "goal"),
      "status" := Lookup(data, "status"),
      "revenue" := Lookup(data, "revenue"),
      "currency" := Lookup(data, "currency"),
      "sub_id_4" := Lookup(data, "sub_id_4"),
      "sub_id_5" := Lookup(data, "sub_id_5"),
      "conversion_date" := Lookup(data, "conversion_date")
    ]
  }

  /** The record depends only on the nine fields: any other input key makes no difference. */
  lemma NormalizeIgnoresOtherKeys(a: Payload, b: Payload)
    requires forall k | k in Fields :: Lookup(a, k) == Lookup(b, k)
    ensures Normalize(a) == Normalize(b)
  {
    var ra, rb := Normalize(a), Normalize(b);
    forall k | k in ra.Keys
      ensures k in rb && ra[k] == rb[k]
    {
      assert Lookup(a, k) == Lookup(b, k);
    }
  }

  /** Normalizing an already normalized record gives it back unchanged. */
  lemma NormalizeIdempotent(data: Payload)
    ensures Normalize(Normalize(data)) == Normalize(data)
  {
    var r := Normalize(data);
    forall k | k in Fields
      ensures Lookup(r, k) == r[k]
    {
    }
  }

  const Header: string := "<b>🔔 Новая конверсия!</b>\n\n"

  /** The eight line labels of the notification, in order. */
  const Labels: seq<string> := [
    "📌 Оффер: ",
    "🛠 Подход: ",
    "📊 Тип конверсии: ",
    "⚙️ Статус конверсии: ",
    "🤑 Выплата: ",
    "🎯 Кампания: ",
    "🎯 Адсет: ",
    "⏰ Время конверсии: "
  ]

  /** The nine values a notification shows, `data.get(key, 'N/A')` for each field in order. */
  function FieldValues(data: Payload): (values: seq<string>)
    ensures |values| == |Fields|
  {
    seq(|Fields|, i requires 0 <= i < |Fields| => Lookup(data, Fields[i]))
  }

  /** The notification text for the nine field values, as the f-strings lay it out. */
  function Message(v: seq<string>): string
    requires |v| == |Fields|
  {
    Header
    + Labels[0] + v[0] + "\n"
    + Labels[1] + v[1] + "\n"
    + Labels[2] + v[2] + "\n"
    + Labels[3] + v[3] + "\n"
    + Labels[4] + v[4] + " " + v[5] + "\n"
    + Labels[5] + v[6] + "\n"
    + Labels[6] + v[7] + "\n"
    + Labels[7] + v[8]
  }

  /** The notification text `send_telegram_message_async` builds from a payload. */
  function Render(data: Payload): string
  {
    Message(FieldValues(data))
  }

  /**
   * Rendering the normalized record gives the text rendering the raw
   * payload gives: both read the same nine keys with the same default.
   */
  lemma RenderNormalized(data: Payload)
    ensures Render(Normalize(data)) == Render(data)
  {
    var r := Normalize(data);
    forall i | 0 <= i < |Fields|
      ensures FieldValues(r)[i] == FieldValues(data)[i]
    {
      assert Fields[i] in Fields;
    }
    assert FieldValues(r) == FieldValues(data);
  }

  /** The value shown on each of the eight lines: one field each, revenue and currency sharing the fifth. */
  function LineValues(v: seq<string>): (values: seq<string>)
    requires |v| == |Fields|
    ensures |values| == |Labels|
  {
    [v[0], v[1], v[2], v[3], v[4] + " " + v[5], v[6], v[7], v[8]]
  }

  /** Lines separated by a newline, with none after the last. */
  function JoinLines(lines: seq<string>): string
  {
    if |lines| == 0 then ""
    else if |lines| == 1 then lines[0]
    else JoinLines(lines[..|lines| - 1]) + "\n" + lines[|lines| - 1]
  }

  /** The eight labelled lines of a notification. */
  function Lines(v: seq<string>): (lines: seq<string>)
    requires |v| == |Fields|
    ensures |lines| == |Labels|
  {
    seq(|Labels|, i requires 0 <= i < |Labels| => Labels[i] + LineValues(v)[i])
  }

  /**
   * Layout of the notification: the bold header and a blank line, then the
   * eight labelled lines in fixed order, each value inserted verbatim,
   * without a trailing newline.
   */
  lemma RenderLayout(data: Payload)
    ensures Render(data) == Header + JoinLines(Lines(FieldValues(data)))
  {
    MessageLayout(FieldValues(data));
  }

  lemma MessageLayout(v: seq<string>)
    requires |v| == |Fields|
    ensures Message(v) == Header + JoinLines(Lines(v))
  {
    var l, lv := Lines(v), LineValues(v);
    var h := Header;
    assert lv == [v[0], v[1], v[2], v[3], v[4] + " " + v[5], v[6], v[7], v[8]];
    assert forall i | 0 <= i < 8 :: l[i] == Labels[i] + lv[i];
    assert l[0] == Labels[0] + v[0] && l[1] == Labels[1] + v[1] && l[2] == Labels[2] + v[2];
    assert l[3] == Labels[3] + v[3] && l[4] == Labels[4] + (v[4] + " " + v[5]) && l[5] == Labels[5] + v[6];
    assert l[6] == Labels[6] + v[7] && l[7] == Labels[7] + v[8];
    JoinEight(l);
    var p1 := h + Labels[0] + v[0];
    var p2 := p1 + "\n" + Labels[1] + v[1];
    var p3 := p2 + "\n" + Labels[2] + v[2];
    var p4 := p3 + "\n" + Labels[3] + v[3];
    var p5 := p4 + "\n" + Labels[4] + v[4] + " " + v[5];
    var p6 := p5 + "\n" + Labels[5] + v[6];
    var p7 := p6 + "\n" + Labels[6] + v[7];
    var p8 := p7 + "\n" + Labels[7] + v[8];
    assert Message(v) == p8;
    assert p1 == h + JoinLines(l[..1]);
    AppendLine(h, JoinLines(l[..1]), Labels[1], v[1]);
    assert p2 == h + JoinLines(l[..2]);
    AppendLine(h, JoinLines(l[..2]), Labels[2], v[2]);
    assert p3 == h + JoinLines(l[..3]);
    AppendLine(h, JoinLines(l[..3]), Labels[3], v[3]);
    assert p4 == h + JoinLines(l[..4]);
    AppendPayoutLine(h, JoinLines(l[..4]), Labels[4], v[4], v[5]);
    assert p5 == h + JoinLines(l[..5]);
    AppendLine(h, JoinLines(l[..5]), Labels[5], v[6]);
    assert p6 == h + JoinLines(l[..6]);
    AppendLine(h, JoinLines(l[..6]), Labels[6], v[7]);
    assert p7 == h + JoinLines(l[..7]);
    AppendLine(h, JoinLines(l[..7]), Labels[7], v[8]);
    assert p8 == h + JoinLines(l[..8]);
    assert l[..8] == l;
  }

  lemma AppendLine(h: string, j: string, a: string, b: string)
    ensures (h + j) + "\n" + a + b == h + (j + "\n" + (a + b))
  {
  }

  lemma AppendPayoutLine(h: string, j: string, a: string, x: string, y: string)
    ensures (h + j) + "\n" + a + x + " " + y == h + (j + "\n" + (a + (x + " " + y)))
  {
  }

  lemma JoinEight(l: seq<string>)
    requires |l| == 8
    ensures JoinLines(l[..1]) == l[0]
    ensures forall k | 1 <= k < 8 :: JoinLines(l[..k + 1]) == JoinLines(l[..k]) + "\n" + l[k]
  {
    assert JoinLines(l[..1]) == l[0];
    assert JoinLines(l[..2]) == JoinLines(l[..1]) + "\n" + l[1] by { assert l[..2][..1] == l[..1]; }
    assert JoinLines(l[..3]) == JoinLines(l[..2]) + "\n" + l[2] by { assert l[..3][..2] == l[..2]; }
    assert JoinLines(l[..4]) == JoinLines(l[..3]) + "\n" + l[3] by { assert l[..4][..3] == l[..3]; }
    assert JoinLines(l[..5]) == JoinLines(l[..4]) + "\n" + l[4] by { assert l[..5][..4] == l[..4]; }
    assert JoinLines(l[..6]) == JoinLines(l[..5]) + "\n" + l[5] by { assert l[..6][..5] == l[..5]; }
    assert JoinLines(l[..7]) == JoinLines(l[..6]) + "\n" + l[6] by { assert l[..7][..6] == l[..6]; }
    assert JoinLines(l[..8]) == JoinLines(l[..7]) + "\n" + l[7] by { assert l[..8][..7] == l[..7]; }
  }

  /**
   * The methods the route accepts: GET and POST as declared, and HEAD,
   * which the router adds to every route that accepts GET.
   */
  datatype HttpMethod = GET | HEAD | POST

  /**
   * What the handler is given: the HTTP method, the JSON body (None when it
   * does not parse to a JSON object) and the query arguments.
   */
  datatype Request = Request(verb: HttpMethod, json: Option<Payload>, args: Payload)

  /** A Flask `(body, status)` reply. */
  datatype Reply = Reply(body: string, status: nat)

  /**
   * One call of a route: the notification text handed to the chat API,
   * if the handler got that far, and the reply, or None when an
   * exception escaped the handler.
   */
  datatype Exchange = Exchange(sent: Option<string>, reply: Option<Reply>)

  /**
   * The `/webhook` handler. `delivered` says whether the chat API call
   * returned normally; the handler catches nothing, so a failed send, like
   * a POST body that is not a JSON object, ends the request with an
   * exception instead of `('OK', 200)`.
   */
  function Webhook(req: Request, delivered: bool): (x: Exchange)
    ensures req.verb != POST ==> x.sent == Some(Render(req.args))
    ensures req.verb == POST ==> x.sent == if req.json.Some? then Some(Render(req.json.value)) else None
    ensures x.reply.Some? <==> x.sent.Some? && delivered
    ensures x.reply.Some? ==> x.reply.value == Reply("OK", 200)
  {
    var data := if req.verb == POST then req.json else Some(req.args);
    match data
    case None => Exchange(None, None)
    case Some(d) =>
      RenderNormalized(d);
      Exchange(Some(Render(Normalize(d))), if delivered then Some(Reply("OK", 200)) else None)
  }

  /** The `/favicon.ico` route: no notification, an empty body with status 204. */
  function Favicon(): (x: Exchange)
    ensures x.sent.None? && x.reply == Some(Reply("", 204))
  {
    Exchange(None, Some(Reply("", 204)))
  }
}
