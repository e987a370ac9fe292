/** Signed tokens: the encoded JSON payload, a dot, and the encoded signature of the payload text. */
module SignedToken {
  import opened Wrappers
  import opened Base64Url

  /** A payload as both kinds of token store it: named texts, and the time of expiry. */
  datatype Fields = Fields(texts: map<string, string>, exp: Option<int>)

  /** JSON text of payloads. */
  datatype Codec = Codec(dumps: Fields -> seq<byte>, loads: seq<byte> -> Option<Fields>)

  /** JSON text reads back as the payload it was written from. */
  ghost predicate Faithful(json: Codec) {
    forall f :: json.loads(json.dumps(f)) == Some(f)
  }

  /** Both kinds are signed with one key; they differ in what they name and in what verifying insists on. */
  datatype Kind = Download | CheckIn

  function DownloadFields(userId: string, campaignId: string, assetId: string, exp: int): Fields {
    Fields(map["userId" := userId, "campaignId" := campaignId, "assetId" := assetId], Some(exp))
  }

  function CheckInFields(eventId: string, applicationId: string, exp: int): Fields {
    Fields(map["eventId" := eventId, "applicationId" := applicationId], Some(exp))
  }

  predicate Names(f: Fields, name: string) {
    name in f.texts && f.texts[name] != ""
  }

  predicate Complete(kind: Kind, f: Fields) {
    kind.CheckIn? ==> Names(f, "eventId") && Names(f, "applicationId")
  }

  datatype TokenError = Invalid | Expired

  function Create(json: Codec, mac: string -> seq<byte>, f: Fields): string {
    var payload := Encode(json.dumps(f));
    payload + "." + Encode(mac(payload))
  }

  /** The parts before and after the first dot. */
  function SplitAtDot(s: string): Option<(string, string)> {
    if |s| == 0 then None
    else if s[0] == '.' then Some(("", s[1..]))
    else match SplitAtDot(s[1..])
      case None => None
      case Some((a, b)) => Some(([s[0]] + a, b))
  }

  predicate Ascii(s: string) {
    forall c :: c in s ==> c as int < 128
  }

  /** What verifying makes of a payload whose signature is right. */
  function Judge(kind: Kind, f: Fields, now: int): Result<Fields, TokenError> {
    if f.exp.None? then Err(Invalid)
    else if f.exp.value <= now then Err(Expired)
    else if !Complete(kind, f) then Err(Invalid) else Ok(f)
  }

  function Verify(kind: Kind, json: Codec, mac: string -> seq<byte>, token: string, now: int)
    : Result<Fields, TokenError>
  {
    match SplitAtDot(token)
    case None => Err(Invalid)
    case Some((payload, signature)) =>
      if !Ascii(payload) || signature != Encode(mac(payload)) then Err(Invalid)
      else match Decode(payload)
        case None => Err(Invalid)
        case Some(bytes) =>
          match json.loads(bytes)
          case None => Err(Invalid)
          case Some(f) => Judge(kind, f, now)
  }

  lemma {:induction false} SplitFirstDot(a: string, b: string)
    requires '.' !in a
    ensures SplitAtDot(a + "." + b) == Some((a, b))
  {
    if |a| == 0 {
      assert (a + "." + b)[1..] == b;
    } else {
      assert (a + "." + b)[1..] == a[1..] + "." + b && a == [a[0]] + a[1..];
      SplitFirstDot(a[1..], b);
    }
  }

  lemma {:induction false} SplitJoins(s: string)
    ensures var parts := SplitAtDot(s);
            (parts.None? <==> '.' !in s)
              && (parts.Some? ==> '.' !in parts.value.0 && s == parts.value.0 + "." + parts.value.1)
  {
    if |s| > 0 && s[0] != '.' {
      SplitJoins(s[1..]);
      assert s == [s[0]] + s[1..];
    }
  }

  /** A created token verifies, as either kind, to what its own fields are worth there. */
  lemma TokenRoundTrip(kind: Kind, json: Codec, mac: string -> seq<byte>, f: Fields, now: int)
    requires Faithful(json)
    ensures Verify(kind, json, mac, Create(json, mac, f), now) == Judge(kind, f, now)
  {
    var payload := Encode(json.dumps(f));
    PaddingRestored(json.dumps(f));
    SymbolsPlain(json.dumps(f));
    SplitFirstDot(payload, Encode(mac(payload)));
    RoundTrip(json.dumps(f));
  }

  /** A download token verifies to its own fields exactly until it expires, and never passes for a check-in pass. */
  lemma DownloadRoundTrip(json: Codec, mac: string -> seq<byte>, userId: string, campaignId: string, assetId: string,
                          exp: int, now: int)
    requires Faithful(json)
    ensures var f := DownloadFields(userId, campaignId, assetId, exp);
            && Verify(Download, json, mac, Create(json, mac, f), now) == (if exp <= now then Err(Expired) else Ok(f))
            && Verify(CheckIn, json, mac, Create(json, mac, f), now).Err?
  {
    var f := DownloadFields(userId, campaignId, assetId, exp);
    TokenRoundTrip(Download, json, mac, f, now);
    TokenRoundTrip(CheckIn, json, mac, f, now);
    assert "eventId"[0] != "userId"[0] && "eventId"[0] != "campaignId"[0] && "eventId"[0] != "assetId"[0];
  }

  /**
   A check-in pass verifies to its own fields until it expires, if it names an event and an
   application. As a download token it verifies whatever it names: nothing in it tells the kinds apart.
   */
  lemma CheckInRoundTrip(json: Codec, mac: string -> seq<byte>, eventId: string, applicationId: string,
                         exp: int, now: int)
    requires Faithful(json)
    ensures var f := CheckInFields(eventId, applicationId, exp);
            && Verify(CheckIn, json, mac, Create(json, mac, f), now)
               == (if exp <= now then Err(Expired)
                   else if eventId != "" && applicationId != "" then Ok(f) else Err(Invalid))
            && Verify(Download, json, mac, Create(json, mac, f), now) == (if exp <= now then Err(Expired) else Ok(f))
  {
    var f := CheckInFields(eventId, applicationId, exp);
    TokenRoundTrip(CheckIn, json, mac, f, now);
    TokenRoundTrip(Download, json, mac, f, now);
    assert "eventId"[0] != "applicationId"[0];
  }

  /** Tokens of different fields differ. */
  lemma CreateInjective(json: Codec, mac: string -> seq<byte>, f: Fields, g: Fields)
    requires Faithful(json) && Create(json, mac, f) == Create(json, mac, g)
    ensures f == g
  {
    PaddingRestored(json.dumps(f));
    PaddingRestored(json.dumps(g));
    SymbolsPlain(json.dumps(f));
    SymbolsPlain(json.dumps(g));
    SplitFirstDot(Encode(json.dumps(f)), Encode(mac(Encode(json.dumps(f)))));
    SplitFirstDot(Encode(json.dumps(g)), Encode(mac(Encode(json.dumps(g)))));
    RoundTrip(json.dumps(f));
    RoundTrip(json.dumps(g));
  }

  /** An accepted token is its payload signed with the server's key, so the payload determines the whole token. */
  lemma AcceptedIsSigned(kind: Kind, json: Codec, mac: string -> seq<byte>, token: string, now: int)
    requires Verify(kind, json, mac, token, now).Ok?
    ensures var parts := SplitAtDot(token);
            var f := Verify(kind, json, mac, token, now).value;
            parts.Some? && token == parts.value.0 + "." + Encode(mac(parts.value.0))
            && f.exp.Some? && now < f.exp.value
  {
    SplitJoins(token);
  }
}
