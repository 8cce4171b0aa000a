/**
  The other side of request signing, as Signature Version 4 describes it: what a
  service checks, from the request and the Authorization value alone. It reads
  the credential scope out of that value, folds the key over the scope as read,
  and writes the canonical request down line by line. What Sign leaves is
  accepted.
 */
module SigVerifier {
  import opened Wrappers
  import opened Strings
  import opened SigV4

  /** The request as it arrives. */
  datatype Received = Received(
    httpMethod: string, host: string, escapedPath: string, rawQuery: string, header: Header, payload: string)

  /** What an Authorization value claims. */
  datatype Claim = Claim(accessKeyID: string, scope: seq<string>, names: seq<string>, signature: string)

  function Rest(prefix: string, s: string): Option<string> {
    if prefix <= s then Some(s[|prefix|..]) else None
  }

  function ParseAuthorization(value: string): Option<Claim> {
    var parts := Split(value, ',');
    if |parts| != 3 then None
    else
      match (Rest("AWS4-HMAC-SHA256 Credential=", parts[0]), Rest(" SignedHeaders=", parts[1]),
             Rest(" Signature=", parts[2]))
      case (Some(credential), Some(names), Some(signature)) =>
        var read := Split(credential, '/');
        Some(Claim(read[0], read[1..], Split(names, ';'), signature))
      case _ => None
  }

  /** The key over the parts of a scope, in the order read. */
  function KeyOver(prim: Primitives, key: string, parts: seq<string>): string
    decreases |parts|
  {
    if parts == [] then key else KeyOver(prim, prim.hmac(key, parts[0]), parts[1..])
  }

  ghost predicate SortedQuery(rawQuery: string, query: string, parts: seq<string>) {
    Sorted(parts) && multiset(parts) == multiset(Split(rawQuery, '&')) && query == Join(parts, '&')
  }

  /** The canonical request, line by line. */
  function RequestText(prim: Primitives, r: Received, query: string, names: seq<string>, values: seq<string>): string
    requires |names| == |values|
  {
    r.httpMethod + "\n"
    + (if |r.escapedPath| == 0 then "/" else r.escapedPath) + "\n"
    + query + "\n"
    + LinesOf(names, values) + "\n"
    + Join(names, ';') + "\n"
    + prim.hexSha256(r.payload)
  }

  function TextToSign(prim: Primitives, date: string, scope: seq<string>, requestText: string): string {
    "AWS4-HMAC-SHA256" + "\n" + date + "\n" + Join(scope, '/') + "\n" + prim.hexSha256(requestText)
  }

  /** The signature fits the request, read with these header values and this order of the query's parts. */
  ghost predicate Fits(prim: Primitives, secret: string, r: Received, c: Claim, date: string,
                       values: seq<string>, query: string, parts: seq<string>) {
    && |values| == |c.names| && Sorted(c.names) && (forall n :: n in c.names <==> MustSign(r.header, n))
    && (forall i | 0 <= i < |c.names| :: MayHaveValue(r.host, r.header, c.names[i], values[i]))
    && SortedQuery(r.rawQuery, query, parts)
    && c.signature == prim.hex(prim.hmac(
         KeyOver(prim, "AWS4" + secret, c.scope),
         TextToSign(prim, date, c.scope, RequestText(prim, r, query, c.names, values))))
  }

  predicate OneValue(h: Header, name: string) {
    name in h && |h[name]| == 1
  }

  ghost predicate Accepts(prim: Primitives, secretOf: string -> Option<string>, r: Received) {
    && OneValue(r.header, "Authorization") && OneValue(r.header, "X-Amz-Date")
    && OneValue(r.header, "X-Amz-Content-Sha256")
    && r.header["X-Amz-Content-Sha256"][0] == prim.hexSha256(r.payload)
    && var claim := ParseAuthorization(r.header["Authorization"][0]);
       claim.Some? && AcceptsClaim(prim, secretOf(claim.value.accessKeyID), r, claim.value, r.header["X-Amz-Date"][0])
  }

  ghost predicate AcceptsClaim(prim: Primitives, secret: Option<string>, r: Received, c: Claim, date: string) {
    && secret.Some?
    && |c.scope| == 4 && |c.scope[0]| == 8 && c.scope[0] <= date && c.scope[3] == "aws4_request"
    && exists values, query, parts :: Fits(prim, secret.value, r, c, date, values, query, parts)
  }

  // ------------------------------------------------- small lemmas

  lemma JoinCons(a: string, rest: seq<string>, sep: char)
    requires rest != []
    ensures Join([a] + rest, sep) == a + [sep] + Join(rest, sep)
  {
    assert ([a] + rest)[1..] == rest;
  }

  lemma JoinFour(a: string, b: string, c: string, d: string, sep: char)
    ensures Join([a, b, c, d], sep) == a + [sep] + b + [sep] + c + [sep] + d
  {
    JoinCons(c, [d], sep);
    JoinCons(b, [c, d], sep);
    JoinCons(a, [b, c, d], sep);
    assert [c] + [d] == [c, d] && [b] + [c, d] == [b, c, d] && [a] + [b, c, d] == [a, b, c, d];
  }

  lemma JoinSix(a: string, b: string, c: string, d: string, e: string, f: string, sep: char)
    ensures Join([a, b, c, d, e, f], sep)
      == a + [sep] + b + [sep] + c + [sep] + d + [sep] + e + [sep] + f
  {
    JoinFour(c, d, e, f, sep);
    JoinCons(b, [c, d, e, f], sep);
    JoinCons(a, [b, c, d, e, f], sep);
    assert [b] + [c, d, e, f] == [b, c, d, e, f] && [a] + [b, c, d, e, f] == [a, b, c, d, e, f];
  }

  lemma LowerKeepsFree(name: string, c: char)
    requires Free(name, c) && !('a' <= c <= 'z')
    ensures Free(Lower(name), c)
  {
    forall i | 0 <= i < |name| ensures Lower(name)[i] != c {
      assert name[i] in name;
    }
  }

  lemma FreeConcat(a: string, b: string, c: char)
    requires Free(a, c) && Free(b, c)
    ensures Free(a + b, c)
  {}

  // ------------------------------------------- what an Authorization says

  ghost function Value(accessKeyID: string, scope: seq<string>, names: seq<string>, signature: string): string {
    "AWS4-HMAC-SHA256" + " Credential=" + accessKeyID + "/" + Join(scope, '/')
    + ", SignedHeaders=" + Join(names, ';') + ", Signature=" + signature
  }

  lemma RestOf(prefix: string, s: string)
    ensures Rest(prefix, prefix + s) == Some(s)
  {
    assert (prefix + s)[|prefix|..] == s;
  }

  lemma CredentialIsRead(accessKeyID: string, scope: seq<string>)
    requires Free(accessKeyID, '/') && scope != [] && AllFree(scope, '/')
    ensures var read := Split(accessKeyID + "/" + Join(scope, '/'), '/'); read[0] == accessKeyID && read[1..] == scope
  {
    var all := [accessKeyID] + scope;
    JoinCons(accessKeyID, scope, '/');
    SplitUndoesJoin(all, '/');
    assert all[1..] == scope;
  }

  lemma ValueIsThreeParts(accessKeyID: string, scope: seq<string>, names: seq<string>, signature: string)
    requires Free(accessKeyID, ',') && AllFree(scope, ',') && AllFree(names, ',') && Free(signature, ',')
    ensures Split(Value(accessKeyID, scope, names, signature), ',')
      == ["AWS4-HMAC-SHA256 Credential=" + (accessKeyID + "/" + Join(scope, '/')),
          " SignedHeaders=" + Join(names, ';'), " Signature=" + signature]
  {
    hide Split;
    var a := "AWS4-HMAC-SHA256 Credential=" + (accessKeyID + "/" + Join(scope, '/'));
    var b, c := " SignedHeaders=" + Join(names, ';'), " Signature=" + signature;
    JoinIsFree(scope, '/', ',');
    JoinIsFree(names, ';', ',');
    assert Free("AWS4-HMAC-SHA256 Credential=", ',') && Free("/", ',');
    assert Free(" SignedHeaders=", ',') && Free(" Signature=", ',');
    FreeConcat(accessKeyID, "/", ',');
    FreeConcat(accessKeyID + "/", Join(scope, '/'), ',');
    FreeConcat("AWS4-HMAC-SHA256 Credential=", accessKeyID + "/" + Join(scope, '/'), ',');
    FreeConcat(" SignedHeaders=", Join(names, ';'), ',');
    FreeConcat(" Signature=", signature, ',');
    JoinCons(b, [c], ',');
    JoinCons(a, [b, c], ',');
    assert [b] + [c] == [b, c] && [a] + [b, c] == [a, b, c];
    SplitUndoesJoin([a, b, c], ',');
    assert Value(accessKeyID, scope, names, signature) == a + [','] + (b + [','] + c) by {
      ValueByCommas(accessKeyID, scope, names, signature);
    }
  }

  lemma ValueByCommas(accessKeyID: string, scope: seq<string>, names: seq<string>, signature: string)
    ensures Value(accessKeyID, scope, names, signature)
      == ("AWS4-HMAC-SHA256 Credential=" + (accessKeyID + "/" + Join(scope, '/'))) + [',']
         + ((" SignedHeaders=" + Join(names, ';')) + [','] + (" Signature=" + signature))
  {
    hide Join;
    assert "AWS4-HMAC-SHA256" + " Credential=" == "AWS4-HMAC-SHA256 Credential=";
    assert ", SignedHeaders=" == [','] + " SignedHeaders=" && ", Signature=" == [','] + " Signature=";
  }

  /** The parser reads back every part of a well-formed value. */
  lemma ValueIsRead(accessKeyID: string, scope: seq<string>, names: seq<string>, signature: string)
    requires Free(accessKeyID, ',') && AllFree(scope, ',') && AllFree(names, ',') && Free(signature, ',')
    requires Free(accessKeyID, '/') && scope != [] && AllFree(scope, '/') && names != [] && AllFree(names, ';')
    ensures ParseAuthorization(Value(accessKeyID, scope, names, signature))
      == Some(Claim(accessKeyID, scope, names, signature))
  {
    hide Split, Join, Value, Rest;
    ValueIsThreeParts(accessKeyID, scope, names, signature);
    RestOf("AWS4-HMAC-SHA256 Credential=", accessKeyID + "/" + Join(scope, '/'));
    RestOf(" SignedHeaders=", Join(names, ';'));
    RestOf(" Signature=", signature);
    CredentialIsRead(accessKeyID, scope);
    SplitUndoesJoin(names, ';');
  }

  // ------------------------------------------------------- the theorem

  ghost function ScopeOf(prim: Primitives, s: Subject): seq<string> {
    [prim.dateStamp(s.time), s.region, s.service, "aws4_request"]
  }

  /** Names and scope parts as AWS issues them, header names as HTTP allows them, and dates that begin with the day. */
  ghost predicate WellFormed(prim: Primitives, s: Subject, h: Header) {
    && Free(s.creds.accessKeyID, ',') && Free(s.creds.accessKeyID, '/')
    && AllFree(ScopeOf(prim, s), ',') && AllFree(ScopeOf(prim, s), '/')
    && (forall k | k in h :: Free(k, ',') && Free(k, ';'))
    && (forall x :: Free(prim.hex(x), ','))
    && |prim.dateStamp(s.time)| == 8 && prim.dateStamp(s.time) <= prim.amzDate(s.time)
  }

  function ReceivedOf(s: Subject, signed: Header): Received {
    Received(s.httpMethod, s.host, s.escapedPath, s.rawQuery, signed, s.payload)
  }

  lemma KeyIsOverScope(prim: Primitives, s: Subject)
    ensures SigningKey(prim, s) == KeyOver(prim, "AWS4" + s.creds.secretAccessKey, ScopeOf(prim, s))
  {
    var date, region, service, end := prim.dateStamp(s.time), s.region, s.service, "aws4_request";
    var key := "AWS4" + s.creds.secretAccessKey;
    KeyStep(prim, key, date, [region, service, end]);
    KeyStep(prim, prim.hmac(key, date), region, [service, end]);
    KeyStep(prim, prim.hmac(prim.hmac(key, date), region), service, [end]);
    KeyStep(prim, prim.hmac(prim.hmac(prim.hmac(key, date), region), service), end, []);
    assert [date] + [region, service, end] == ScopeOf(prim, s) && [region] + [service, end] == [region, service, end];
    assert [service] + [end] == [service, end] && [end] + [] == [end];
  }

  lemma KeyStep(prim: Primitives, key: string, part: string, rest: seq<string>)
    ensures KeyOver(prim, key, [part] + rest) == KeyOver(prim, prim.hmac(key, part), rest)
    ensures KeyOver(prim, key, []) == key
  {
    assert ([part] + rest)[1..] == rest;
  }

  lemma QueryIsSorted(rawQuery: string)
    ensures SortedQuery(rawQuery, CanonicalQuery(rawQuery), Sort(Split(rawQuery, '&')))
  {
    SortSorts(Split(rawQuery, '&'));
  }

  /** The text that Sign hashes is the one written down here. */
  lemma SameText(prim: Primitives, s: Subject, signed: Header, c: CanonicalHeaders,
                 names: seq<string>, values: seq<string>)
    requires |names| == |values| && c.signedHeaders == Join(names, ';') && c.block == LinesOf(names, values)
    ensures CanonicalText(s.httpMethod, CanonicalURI(s.escapedPath), CanonicalQuery(s.rawQuery), c,
                          prim.hexSha256(s.payload))
      == RequestText(prim, ReceivedOf(s, signed), CanonicalQuery(s.rawQuery), names, values)
  {
    hide CanonicalQuery, Join, LinesOf;
    JoinSix(s.httpMethod, CanonicalURI(s.escapedPath), CanonicalQuery(s.rawQuery), c.block, c.signedHeaders,
            prim.hexSha256(s.payload), '\n');
  }

  /** The Authorization value in the verifier's terms. */
  lemma AuthorizationSays(prim: Primitives, s: Subject, signed: Header, c: CanonicalHeaders,
                          names: seq<string>, values: seq<string>)
    requires |names| == |values| && c.signedHeaders == Join(names, ';') && c.block == LinesOf(names, values)
    ensures Authorization(prim, s, c) == Value(s.creds.accessKeyID, ScopeOf(prim, s), names,
      prim.hex(prim.hmac(
        KeyOver(prim, "AWS4" + s.creds.secretAccessKey, ScopeOf(prim, s)),
        TextToSign(prim, prim.amzDate(s.time), ScopeOf(prim, s),
                   RequestText(prim, ReceivedOf(s, signed), CanonicalQuery(s.rawQuery), names, values)))))
  {
    hide CanonicalQuery, CanonicalText, CanonicalURI, Join, LinesOf, SigningKey, KeyOver, RequestText;
    KeyIsOverScope(prim, s);
    SameText(prim, s, signed, c, names, values);
    var text := RequestText(prim, ReceivedOf(s, signed), CanonicalQuery(s.rawQuery), names, values);
    JoinFour(ALGORITHM, prim.amzDate(s.time), Join(ScopeOf(prim, s), '/'), prim.hexSha256(text), '\n');
  }

  /** The Authorization header itself is not signed. */
  lemma SameSignedParts(host: string, p: Header, auth: string, name: string, value: string)
    ensures var signed := p["Authorization" := [auth]];
      && (MustSign(signed, name) <==> MustSign(p, name))
      && (MustSign(p, name) && MayHaveValue(host, p, name, value) ==> MayHaveValue(host, signed, name, value))
  {
    hide TrimSpace, Join, Lower;
    var signed := p["Authorization" := [auth]];
    AuthorizationName();
    if name != "host" && (name == "content-type" || "x-amz-" <= name) {
      assert Lower("Authorization") != name;
      forall k | Lower(k) == name ensures (k in signed <==> k in p) && (k in p ==> signed[k] == p[k]) {}
    }
  }

  lemma AuthorizationName()
    ensures Lower("Authorization") != "content-type" && !("x-amz-" <= Lower("Authorization"))
  {
    assert Lower("Authorization")[0] == 'a';
    assert "content-type"[0] == 'c' && "x-amz-"[0] == 'x';
  }

  /** Every name in the list of signed ones is plain. */
  lemma NamesArePlain(prim: Primitives, s: Subject, h: Header, names: seq<string>)
    requires WellFormed(prim, s, h) && forall n | n in names :: MustSign(Prepared(prim, s, h), n)
    ensures AllFree(names, ',') && AllFree(names, ';')
  {
    hide Lower;
    assert Free("host", ',') && Free("host", ';');
    PreparedIsPlain(prim, s, h);
    forall i | 0 <= i < |names| ensures Free(names[i], ',') && Free(names[i], ';') {
      assert names[i] in names;
      if names[i] != "host" {
        var k :| k in Prepared(prim, s, h) && Lower(k) == names[i];
        LowerKeepsFree(k, ',');
        LowerKeepsFree(k, ';');
      }
    }
  }

  lemma PreparedIsPlain(prim: Primitives, s: Subject, h: Header)
    requires forall k | k in h :: Free(k, ',') && Free(k, ';')
    ensures forall k | k in Prepared(prim, s, h) :: Free(k, ',') && Free(k, ';')
  {
    hide Free;
    PlainOnes();
  }

  lemma PlainOnes()
    ensures forall k | k in {"Host", "X-Amz-Date", "X-Amz-Security-Token", "X-Amz-Content-Sha256"} ::
      Free(k, ',') && Free(k, ';')
  {}

  /** What signing does to the headers, one by one. */
  lemma HeadersAfterSigning(prim: Primitives, s: Subject, h: Header, signed: Header, order: seq<string>)
    requires SignedFrom(prim, s, h, signed, order)
    ensures "Host" in signed && signed["Host"] == [s.host]
    ensures "X-Amz-Date" in signed && signed["X-Amz-Date"] == [prim.amzDate(s.time)]
    ensures "X-Amz-Content-Sha256" in signed && signed["X-Amz-Content-Sha256"] == [prim.hexSha256(s.payload)]
    ensures s.creds.sessionToken != "" ==>
      "X-Amz-Security-Token" in signed && signed["X-Amz-Security-Token"] == [s.creds.sessionToken]
    ensures OneValue(signed, "Authorization")
    ensures forall k | k !in {"Host", "X-Amz-Date", "X-Amz-Content-Sha256", "X-Amz-Security-Token", "Authorization"} ::
      (k in signed <==> k in h) && (k in h ==> signed[k] == h[k])
    ensures s.creds.sessionToken == "" ==>
      var k := "X-Amz-Security-Token"; (k in signed <==> k in h) && (k in h ==> signed[k] == h[k])
  {
    hide Authorization, CanonicalFor;
  }

  lemma HostIsSigned(h: Header, names: seq<string>)
    requires forall n :: n in names <==> MustSign(h, n)
    ensures names != []
  {
    assert "host" in names;
  }

  /**
    A service that knows the secret accepts what Sign leaves, and reads from it
    the access key, the scope as date, region, service and terminator, and the
    names of the signed headers.
   */
  lemma SignedIsAccepted(prim: Primitives, s: Subject, h: Header, signed: Header, order: seq<string>,
                         secretOf: string -> Option<string>)
    requires SignedFrom(prim, s, h, signed, order) && WellFormed(prim, s, h)
    requires secretOf(s.creds.accessKeyID) == Some(s.creds.secretAccessKey)
    ensures OneValue(signed, "Authorization")
    ensures var claim := ParseAuthorization(signed["Authorization"][0]);
      && claim.Some? && claim.value.accessKeyID == s.creds.accessKeyID
      && claim.value.scope == [prim.dateStamp(s.time), s.region, s.service, "aws4_request"]
      && forall n :: n in claim.value.names <==> MustSign(signed, n)
    ensures Accepts(prim, secretOf, ReceivedOf(s, signed))
  {
    hide Prepared, Authorization, CanonicalFor, Canonical, MustSign, MayHaveValue, Value, ParseAuthorization, KeyOver,
      RequestText, TextToSign, CanonicalQuery, SortedQuery, IsOrder, Sorted;
    HeadersAfterSigning(prim, s, h, signed, order);
    var p := Prepared(prim, s, h);
    var names, values := CanonicalIsExact(s.host, p, order);
    var c := CanonicalFor(s.host, p, order);
    var auth := Authorization(prim, s, c);
    CanonicalFacts(s.host, p, c, names, values);
    AuthorizationSays(prim, s, signed, c, names, values);
    NamesArePlain(prim, s, h, names);
    HostIsSigned(p, names);
    var r, date, query := ReceivedOf(s, signed), prim.amzDate(s.time), CanonicalQuery(s.rawQuery);
    var signature := prim.hex(prim.hmac(
      KeyOver(prim, "AWS4" + s.creds.secretAccessKey, ScopeOf(prim, s)),
      TextToSign(prim, date, ScopeOf(prim, s), RequestText(prim, r, query, names, values))));
    var claim := Claim(s.creds.accessKeyID, ScopeOf(prim, s), names, signature);
    ValueIsRead(s.creds.accessKeyID, ScopeOf(prim, s), names, signature);
    forall n ensures n in names <==> MustSign(signed, n) {
      SameSignedParts(s.host, p, auth, n, "");
    }
    forall i | 0 <= i < |names| ensures MayHaveValue(s.host, signed, names[i], values[i]) {
      assert names[i] in names;
      SameSignedParts(s.host, p, auth, names[i], values[i]);
    }
    QueryIsSorted(s.rawQuery);
    assert Fits(prim, s.creds.secretAccessKey, r, claim, date, values, query, Sort(Split(s.rawQuery, '&')));
  }

  lemma CanonicalFacts(host: string, h: Header, c: CanonicalHeaders, names: seq<string>, values: seq<string>)
    requires Canonical(host, h, c, names, values)
    ensures |names| == |values| && Sorted(names) && (forall n :: n in names <==> MustSign(h, n))
    ensures forall i | 0 <= i < |names| :: MayHaveValue(host, h, names[i], values[i])
    ensures c.signedHeaders == Join(names, ';') && c.block == LinesOf(names, values)
  {
    hide MustSign, MayHaveValue;
  }
}
