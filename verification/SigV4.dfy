/**
  Request signing of pkg/provider/bedrock (AWS Signature Version 4): the
  canonical request printer over an unordered header map, and Sign.

  Hashing, hex and time formatting are parameters: nothing is assumed of them.
 */
module SigV4 {
  import opened Strings

  type Header = map<string, seq<string>>

  // ------------------------------------------------------ canonical headers

  predicate IsSigned(name: string) {
    var lower := Lower(name);
    lower != "host" && (lower == "content-type" || "x-amz-" <= lower)
  }

  /** The canonical value of a header of the map. */
  function ValueOf(h: Header, name: string): string
    requires name in h
  {
    TrimSpace(Join(h[name], ','))
  }

  /** The names collected when the map is iterated in a given order. */
  function Names(order: seq<string>): seq<string> {
    if order == [] then ["host"]
    else
      var name := order[|order| - 1];
      Names(order[..|order| - 1]) + (if IsSigned(name) then [Lower(name)] else [])
  }

  ghost predicate Covered(h: Header, order: seq<string>) {
    forall i | 0 <= i < |order| :: order[i] in h
  }

  /** The values collected; a later name overwrites an earlier one that is equal ignoring case. */
  function Values(host: string, h: Header, order: seq<string>): (values: map<string, string>)
    requires Covered(h, order)
    ensures "host" in values
  {
    if order == [] then map["host" := TrimSpace(host)]
    else
      var name := order[|order| - 1];
      var values := Values(host, h, order[..|order| - 1]);
      if IsSigned(name) then values[Lower(name) := ValueOf(h, name)] else values
  }

  function Line(name: string, value: string): string {
    name + ":" + value + "\n"
  }

  function Block(names: seq<string>, values: map<string, string>): string
    requires forall n | n in names :: n in values
  {
    if names == [] then ""
    else
      var n := names[|names| - 1];
      Block(names[..|names| - 1], values) + Line(n, values[n])
  }

  datatype CanonicalHeaders = CanonicalHeaders(signedHeaders: string, block: string)

  ghost predicate Distinct(xs: seq<string>) {
    forall i, j | 0 <= i < j < |xs| :: xs[i] != xs[j]
  }

  lemma DistinctGrows(xs: seq<string>, x: string)
    requires Distinct(xs) && x !in xs
    ensures Distinct(xs + [x])
  {
    forall i | 0 <= i < |xs| ensures xs[i] != x {
      assert xs[i] in xs;
    }
  }

  /** `order` is one way to iterate the map: every key once. */
  ghost predicate IsOrder(h: Header, order: seq<string>) {
    && (forall i | 0 <= i < |order| :: order[i] in h)
    && (forall name | name in h :: name in order)
    && Distinct(order)
  }

  ghost function CanonicalFor(host: string, h: Header, order: seq<string>): CanonicalHeaders
    requires Covered(h, order)
  {
    var names := Sort(Names(order));
    NamesHaveValues(host, h, order);
    CanonicalHeaders(Join(names, ';'), Block(names, Values(host, h, order)))
  }

  lemma {:induction false} NamesHaveValues(host: string, h: Header, order: seq<string>)
    requires Covered(h, order)
    ensures forall n | n in Names(order) :: n in Values(host, h, order)
    ensures forall n | n in Sort(Names(order)) :: n in Values(host, h, order)
  {
    if order != [] {
      NamesHaveValues(host, h, order[..|order| - 1]);
    }
    SortSorts(Names(order));
    forall n | n in Sort(Names(order)) ensures n in Names(order) {
      assert n in multiset(Sort(Names(order)));
    }
  }

  // What the canonical headers are, said without the loops.

  /** The header is signed: host always, content-type and the x-amz- ones when they are there. */
  ghost predicate MustSign(h: Header, name: string) {
    name == "host" || ((name == "content-type" || "x-amz-" <= name) && exists k :: k in h && Lower(k) == name)
  }

  /** The canonical value of a signed header, from some spelling of its name. */
  ghost predicate MayHaveValue(host: string, h: Header, name: string, value: string) {
    if name == "host" then value == TrimSpace(host)
    else exists k :: k in h && Lower(k) == name && value == TrimSpace(Join(h[k], ','))
  }

  function LinesOf(names: seq<string>, values: seq<string>): string
    requires |names| == |values|
  {
    if names == [] then "" else names[0] + ":" + values[0] + "\n" + LinesOf(names[1..], values[1..])
  }

  /** One line for each signed name, in the order of the names, which name each signed header and no other. */
  ghost predicate Canonical(host: string, h: Header, c: CanonicalHeaders, names: seq<string>, values: seq<string>) {
    && |names| == |values| && Sorted(names) && (forall n :: n in names <==> MustSign(h, n))
    && (forall i | 0 <= i < |names| :: MayHaveValue(host, h, names[i], values[i]))
    && c.signedHeaders == Join(names, ';') && c.block == LinesOf(names, values)
  }

  lemma {:induction false} LinesSnoc(names: seq<string>, values: seq<string>, n: string, v: string)
    requires |names| == |values|
    ensures LinesOf(names + [n], values + [v]) == LinesOf(names, values) + Line(n, v)
  {
    if names == [] {
      assert LinesOf([], []) == "";
      assert names + [n] == [n] && values + [v] == [v] && [n][1..] == [] && [v][1..] == [];
    } else {
      assert (names + [n])[1..] == names[1..] + [n] && (values + [v])[1..] == values[1..] + [v];
      LinesSnoc(names[1..], values[1..], n, v);
    }
  }

  function ValuesAt(names: seq<string>, values: map<string, string>): seq<string>
    requires forall n | n in names :: n in values
  {
    seq(|names|, i requires 0 <= i < |names| => values[names[i]])
  }

  lemma {:induction false} BlockIsLines(names: seq<string>, values: map<string, string>)
    requires forall n | n in names :: n in values
    ensures Block(names, values) == LinesOf(names, ValuesAt(names, values))
  {
    if names != [] {
      var init, n := names[..|names| - 1], names[|names| - 1];
      BlockIsLines(init, values);
      LinesSnoc(init, ValuesAt(init, values), n, values[n]);
      assert names == init + [n] && ValuesAt(names, values) == ValuesAt(init, values) + [values[n]];
    }
  }

  lemma {:induction false} ValuesComeFrom(host: string, h: Header, order: seq<string>)
    requires Covered(h, order)
    ensures forall n | n in Values(host, h, order) :: MayHaveValue(host, h, n, Values(host, h, order)[n])
  {
    hide Lower, TrimSpace;
    if order != [] {
      ValuesComeFrom(host, h, order[..|order| - 1]);
      assert order[|order| - 1] in h;
    }
  }

  lemma SignedFormMustSign(h: Header, order: seq<string>, n: string)
    requires IsOrder(h, order)
    ensures n == "host" || IsSignedForm(order, n) <==> MustSign(h, n)
  {
    hide Lower;
    if n != "host" && MustSign(h, n) {
      var k :| k in h && Lower(k) == n;
      assert k in order && IsSigned(k);
    }
    if IsSignedForm(order, n) {
      var k :| k in order && IsSigned(k) && Lower(k) == n;
      assert k in h;
    }
  }

  /** Every iteration order gives the canonical headers. */
  lemma CanonicalIsExact(host: string, h: Header, order: seq<string>) returns (names: seq<string>, values: seq<string>)
    requires IsOrder(h, order)
    ensures Covered(h, order) && names == Sort(Names(order))
    ensures Canonical(host, h, CanonicalFor(host, h, order), names, values)
  {
    hide MustSign, IsSignedForm, MayHaveValue, Lower, Names, Values, Block, LinesOf, Sort;
    names := Sort(Names(order));
    NamesHaveValues(host, h, order);
    var all := Values(host, h, order);
    values := ValuesAt(names, all);
    SortSorts(Names(order));
    NamesMembers(order);
    ValuesComeFrom(host, h, order);
    BlockIsLines(names, all);
    forall n ensures n in names <==> MustSign(h, n) {
      assert n in names <==> n in multiset(names);
      assert n in Names(order) <==> n in multiset(Names(order));
      SignedFormMustSign(h, order, n);
    }
    forall i | 0 <= i < |names| ensures MayHaveValue(host, h, names[i], values[i]) {
      assert names[i] in names;
    }
  }

  /** The loop over the map, in whatever order it iterates. */
  method Collect(host: string, h: Header)
    returns (names: seq<string>, values: map<string, string>, ghost order: seq<string>)
    ensures IsOrder(h, order) && Covered(h, order)
    ensures names == Names(order) && values == Values(host, h, order)
  {
    hide Lower, TrimSpace;
    names, values, order := ["host"], map["host" := TrimSpace(host)], [];
    var left := h.Keys;
    while left != {}
      invariant left <= h.Keys && Covered(h, order)
      invariant forall name :: name in order <==> name in h.Keys - left
      invariant Distinct(order)
      invariant names == Names(order) && values == Values(host, h, order)
      decreases left
    {
      var name :| name in left;   // map iteration order
      left := left - {name};
      DistinctGrows(order, name);
      assert (order + [name])[..|order|] == order;
      order := order + [name];
      var lower := Lower(name);
      if lower == "host" {
        continue;
      }
      if lower == "content-type" || "x-amz-" <= lower {
        names := names + [lower];
        values := values[lower := TrimSpace(Join(h[name], ','))];
      }
    }
  }

  /** The loop over the sorted names. */
  method Print(names: seq<string>, values: map<string, string>) returns (block: string)
    requires forall n | n in names :: n in values
    ensures block == Block(names, values)
  {
    block := "";
    for i := 0 to |names|
      invariant block == Block(names[..i], values)
    {
      assert names[..i + 1][..i] == names[..i];
      block := block + names[i] + ":" + values[names[i]] + "\n";
      assert block == Block(names[..i], values) + Line(names[i], values[names[i]]);
    }
    assert names[..|names|] == names;
  }

  /** Whatever order the map iterates in, the result is the canonical one for that order. */
  method CanonicalizeHeaders(host: string, h: Header) returns (result: CanonicalHeaders)
    ensures exists order :: IsOrder(h, order) && result == CanonicalFor(host, h, order)
    ensures exists names, values :: Canonical(host, h, result, names, values)
  {
    hide Names, Values, Block, Sort, Canonical;
    var names, values;
    ghost var order;
    names, values, order := Collect(host, h);
    NamesHaveValues(host, h, order);
    names := Sort(names);
    var block := Print(names, values);
    result := CanonicalHeaders(Join(names, ';'), block);
    assert IsOrder(h, order) && result == CanonicalFor(host, h, order);
    ghost var signed, lines := CanonicalIsExact(host, h, order);
  }

  // ---------------------------------------------- the rest of the request

  function CanonicalURI(escapedPath: string): string {
    if escapedPath == "" then "/" else escapedPath
  }

  function CanonicalQuery(rawQuery: string): string {
    if rawQuery == "" then "" else Join(Sort(Split(rawQuery, '&')), '&')
  }

  function CanonicalText(httpMethod: string, uri: string, query: string, headers: CanonicalHeaders,
                         payloadHash: string): string {
    Join([httpMethod, uri, query, headers.block, headers.signedHeaders, payloadHash], '\n')
  }

  /** SHA-256, HMAC, hex and time formatting. */
  datatype Primitives = Primitives(
    hexSha256: string -> string, hmac: (string, string) -> string, hex: string -> string,
    amzDate: int -> string, dateStamp: int -> string)

  datatype Credentials = Credentials(accessKeyID: string, secretAccessKey: string, sessionToken: string)

  const ALGORITHM := "AWS4-HMAC-SHA256"
  const TERMINATOR := "aws4_request"

  /** What a signature covers besides the headers. */
  datatype Subject = Subject(
    creds: Credentials, httpMethod: string, host: string, escapedPath: string, rawQuery: string,
    payload: string, service: string, region: string, time: int)

  function SigningKey(prim: Primitives, s: Subject): string {
    var kDate := prim.hmac("AWS4" + s.creds.secretAccessKey, prim.dateStamp(s.time));
    var kRegion := prim.hmac(kDate, s.region);
    var kService := prim.hmac(kRegion, s.service);
    prim.hmac(kService, TERMINATOR)
  }

  function Authorization(prim: Primitives, s: Subject, headers: CanonicalHeaders): string {
    var text := CanonicalText(s.httpMethod, CanonicalURI(s.escapedPath), CanonicalQuery(s.rawQuery), headers,
                              prim.hexSha256(s.payload));
    var scope := Join([prim.dateStamp(s.time), s.region, s.service, TERMINATOR], '/');
    var stringToSign := Join([ALGORITHM, prim.amzDate(s.time), scope, prim.hexSha256(text)], '\n');
    var signature := prim.hex(prim.hmac(SigningKey(prim, s), stringToSign));
    ALGORITHM + " Credential=" + s.creds.accessKeyID + "/" + scope
    + ", SignedHeaders=" + headers.signedHeaders + ", Signature=" + signature
  }

  /** The headers as they are signed. */
  function Prepared(prim: Primitives, s: Subject, h: Header): Header {
    var dated := h["Host" := [s.host]]["X-Amz-Date" := [prim.amzDate(s.time)]];
    var tokened :=
      if s.creds.sessionToken != "" then dated["X-Amz-Security-Token" := [s.creds.sessionToken]] else dated;
    tokened["X-Amz-Content-Sha256" := [prim.hexSha256(s.payload)]]
  }

  /** `signed` is what signing `h` may leave, for some iteration order of the map. */
  ghost predicate SignedFrom(prim: Primitives, s: Subject, h: Header, signed: Header, order: seq<string>) {
    var p := Prepared(prim, s, h);
    IsOrder(p, order)
    && signed == p["Authorization" := [Authorization(prim, s, CanonicalFor(s.host, p, order))]]
  }

  class Request {
    const httpMethod: string
    const host: string
    const escapedPath: string
    const rawQuery: string
    var header: Header

    constructor (httpMethod: string, host: string, escapedPath: string, rawQuery: string, header: Header)
      ensures this.httpMethod == httpMethod && this.host == host
      ensures this.escapedPath == escapedPath && this.rawQuery == rawQuery && this.header == header
    {
      this.httpMethod, this.host, this.escapedPath, this.rawQuery := httpMethod, host, escapedPath, rawQuery;
      this.header := header;
    }
  }

  method Sign(prim: Primitives, creds: Credentials, req: Request, payload: string,
              service: string, region: string, time: int)
    modifies req
    ensures exists order :: SignedFrom(prim,
      Subject(creds, req.httpMethod, req.host, req.escapedPath, req.rawQuery, payload, service, region, time),
      old(req.header), req.header, order)
  {
    ghost var s :=
      Subject(creds, req.httpMethod, req.host, req.escapedPath, req.rawQuery, payload, service, region, time);
    var amzDate := prim.amzDate(time);
    var dateStamp := prim.dateStamp(time);

    req.header := req.header["Host" := [req.host]];
    req.header := req.header["X-Amz-Date" := [amzDate]];
    if creds.sessionToken != "" {
      req.header := req.header["X-Amz-Security-Token" := [creds.sessionToken]];
    }
    var payloadHash := prim.hexSha256(payload);
    req.header := req.header["X-Amz-Content-Sha256" := [payloadHash]];

    var headers := CanonicalizeHeaders(req.host, req.header);
    ghost var order :| IsOrder(req.header, order) && headers == CanonicalFor(req.host, req.header, order);
    var canonicalRequest := CanonicalText(
      req.httpMethod, CanonicalURI(req.escapedPath), CanonicalQuery(req.rawQuery), headers, payloadHash);
    var scope := Join([dateStamp, region, service, TERMINATOR], '/');
    var stringToSign := Join([ALGORITHM, amzDate, scope, prim.hexSha256(canonicalRequest)], '\n');

    var kDate := prim.hmac("AWS4" + creds.secretAccessKey, dateStamp);
    var kRegion := prim.hmac(kDate, region);
    var kService := prim.hmac(kRegion, service);
    var signingKey := prim.hmac(kService, TERMINATOR);
    var signature := prim.hex(prim.hmac(signingKey, stringToSign));
    req.header := req.header["Authorization" := [
      ALGORITHM + " Credential=" + creds.accessKeyID + "/" + scope
      + ", SignedHeaders=" + headers.signedHeaders + ", Signature=" + signature]];
    assert SignedFrom(prim, s, old(req.header), req.header, order);
  }

  // ------------------------------------------------- iteration order

  /** Signed names that are equal ignoring case carry the same canonical value. */
  ghost predicate Consistent(h: Header) {
    forall k, k' | k in h && k' in h && IsSigned(k) && IsSigned(k') && Lower(k) == Lower(k') ::
      ValueOf(h, k) == ValueOf(h, k')
  }

  /** The two maps have the same signed headers. */
  ghost predicate SameSigned(h: Header, h': Header) {
    && (forall k | IsSigned(k) :: k in h <==> k in h')
    && (forall k | IsSigned(k) && k in h && k in h' :: h[k] == h'[k])
  }

  function SignedOnly(order: seq<string>): seq<string> {
    if order == [] then []
    else
      var name := order[|order| - 1];
      SignedOnly(order[..|order| - 1]) + (if IsSigned(name) then [name] else [])
  }

  lemma {:induction false} SignedOnlyMembers(order: seq<string>, name: string)
    ensures multiset(SignedOnly(order))[name] == if IsSigned(name) then multiset(order)[name] else 0
  {
    if order != [] {
      SignedOnlyMembers(order[..|order| - 1], name);
      assert order == order[..|order| - 1] + [order[|order| - 1]];
    }
  }

  lemma {:induction false} OrderCounts(order: seq<string>, name: string)
    requires Distinct(order)
    ensures multiset(order)[name] == if name in order then 1 else 0
  {
    if order != [] {
      OrderCounts(order[..|order| - 1], name);
      assert order == order[..|order| - 1] + [order[|order| - 1]];
    }
  }

  /** Signed names are the same multiset in every order of every map with the same signed headers. */
  lemma SameSignedNames(h: Header, h': Header, order: seq<string>, order': seq<string>)
    requires SameSigned(h, h') && IsOrder(h, order) && IsOrder(h', order')
    ensures multiset(SignedOnly(order)) == multiset(SignedOnly(order'))
  {
    forall name ensures multiset(SignedOnly(order))[name] == multiset(SignedOnly(order'))[name] {
      SignedOnlyMembers(order, name);
      SignedOnlyMembers(order', name);
      OrderCounts(order, name);
      OrderCounts(order', name);
    }
  }

  function Lowered(names: seq<string>): seq<string> {
    if names == [] then [] else Lowered(names[..|names| - 1]) + [Lower(names[|names| - 1])]
  }

  lemma {:induction false} LoweredConcat(a: seq<string>, b: seq<string>)
    ensures Lowered(a + b) == Lowered(a) + Lowered(b)
  {
    if b == [] {
      assert a + b == a;
    } else {
      assert (a + b)[..|a + b| - 1] == a + b[..|b| - 1];
      LoweredConcat(a, b[..|b| - 1]);
    }
  }

  lemma WithoutLast(a: seq<string>, b: seq<string>) returns (l: seq<string>, r: seq<string>)
    requires a != [] && multiset(a) == multiset(b)
    ensures b == l + [a[|a| - 1]] + r && multiset(a[..|a| - 1]) == multiset(l + r)
  {
    var x, init := a[|a| - 1], a[..|a| - 1];
    assert a == init + [x];
    assert x in multiset(b);
    var i :| 0 <= i < |b| && b[i] == x;
    l, r := b[..i], b[i + 1..];
    assert b == l + [x] + r;
    assert multiset(init) == multiset(a) - multiset{x};
    assert multiset(l + r) == multiset(b) - multiset{x};
  }

  lemma {:induction false} LoweredPermutes(a: seq<string>, b: seq<string>)
    requires multiset(a) == multiset(b)
    ensures multiset(Lowered(a)) == multiset(Lowered(b))
  {
    hide Lower;
    if a == [] {
      assert |multiset(b)| == 0;
    } else {
      var x, init := a[|a| - 1], a[..|a| - 1];
      var l, r := WithoutLast(a, b);
      LoweredPermutes(init, l + r);
      LoweredConcat(l, r);
      LoweredConcat(l + [x], r);
      LoweredConcat(l, [x]);
      assert Lowered([x]) == [Lower(x)];
    }
  }

  lemma {:induction false} NamesAreLowered(order: seq<string>)
    ensures Names(order) == ["host"] + Lowered(SignedOnly(order))
  {
    if order != [] {
      var init, name := order[..|order| - 1], order[|order| - 1];
      NamesAreLowered(init);
      if IsSigned(name) {
        LoweredConcat(SignedOnly(init), [name]);
        assert Lowered([name]) == [Lower(name)];
      } else {
        assert SignedOnly(order) == SignedOnly(init) + [] == SignedOnly(init);
        assert Names(order) == Names(init) + [] == Names(init);
      }
    }
  }

  lemma SortedNamesAgree(h: Header, h': Header, order: seq<string>, order': seq<string>)
    requires SameSigned(h, h') && IsOrder(h, order) && IsOrder(h', order')
    ensures Sort(Names(order)) == Sort(Names(order'))
  {
    SameSignedNames(h, h', order, order');
    LoweredPermutes(SignedOnly(order), SignedOnly(order'));
    NamesAreLowered(order);
    NamesAreLowered(order');
    SortIsCanonical(Names(order), Names(order'));
  }

  /** With consistent values, the map of values says what each signed header says. */
  lemma {:induction false} ValuesFacts(host: string, h: Header, order: seq<string>)
    requires Covered(h, order) && Consistent(h)
    ensures var values := Values(host, h, order);
      && values["host"] == TrimSpace(host)
      && (forall k | k in order && IsSigned(k) :: Lower(k) in values && values[Lower(k)] == ValueOf(h, k))
      && (forall n | n in values && n != "host" :: exists k :: k in order && IsSigned(k) && Lower(k) == n)
  {
    if order != [] {
      var init, name := order[..|order| - 1], order[|order| - 1];
      ValuesFacts(host, h, init);
      var values := Values(host, h, order);
      assert order == init + [name];
      forall n | n in values && n != "host" ensures exists k :: k in order && IsSigned(k) && Lower(k) == n {
        if n in Values(host, h, init) {
          var k :| k in init && IsSigned(k) && Lower(k) == n;
          assert k in order;
        } else {
          assert name in order && Lower(name) == n;
        }
      }
    }
  }

  lemma ValuesAgree(host: string, h: Header, h': Header, order: seq<string>, order': seq<string>)
    requires SameSigned(h, h') && Consistent(h) && IsOrder(h, order) && IsOrder(h', order')
    ensures Values(host, h, order) == Values(host, h', order')
  {
    ConsistentToo(h, h');
    ValuesFacts(host, h, order);
    ValuesFacts(host, h', order');
    var v, v' := Values(host, h, order), Values(host, h', order');
    forall n | n in v ensures n in v' && v[n] == v'[n] {
      if n != "host" {
        var k :| k in order && IsSigned(k) && Lower(k) == n;
        assert k in h && k in h' && k in order';
      }
    }
    forall n | n in v' ensures n in v {
      if n != "host" {
        var k :| k in order' && IsSigned(k) && Lower(k) == n;
        assert k in h' && k in h && k in order;
      }
    }
  }

  lemma ConsistentToo(h: Header, h': Header)
    requires SameSigned(h, h') && Consistent(h)
    ensures Consistent(h')
  {
    forall k, k' | k in h' && k' in h' && IsSigned(k) && IsSigned(k') && Lower(k) == Lower(k')
      ensures ValueOf(h', k) == ValueOf(h', k')
    {
      assert k in h && k' in h;
    }
  }

  /** Canonical headers depend on nothing but the signed headers: not on the others, nor on the iteration order. */
  lemma CanonicalDependsOnSigned(host: string, h: Header, h': Header, order: seq<string>, order': seq<string>)
    requires SameSigned(h, h') && Consistent(h) && IsOrder(h, order) && IsOrder(h', order')
    ensures CanonicalFor(host, h, order) == CanonicalFor(host, h', order')
  {
    SortedNamesAgree(h, h', order, order');
    ValuesAgree(host, h, h', order, order');
  }

  // The converse: two orders that end in a conflicting pair, one each way round.

  lemma {:induction false} SomeOrder(keys: set<string>) returns (order: seq<string>)
    ensures forall k :: k in order <==> k in keys
    ensures Distinct(order)
  {
    order := [];
    var left := keys;
    while left != {}
      invariant left <= keys
      invariant forall k :: k in order <==> k in keys - left
      invariant Distinct(order)
      decreases left
    {
      var k :| k in left;
      DistinctGrows(order, k);
      left, order := left - {k}, order + [k];
    }
  }

  /** Blocks over maps that differ in one listed value differ. */
  lemma {:induction false} BlockLengths(names: seq<string>, v: map<string, string>, v': map<string, string>, n: string)
    requires forall m | m in names :: m in v && m in v' && (m != n ==> v[m] == v'[m])
    requires n in v && n in v'
    ensures |v[n]| <= |v'[n]| ==> |Block(names, v)| <= |Block(names, v')|
    ensures |v[n]| < |v'[n]| && n in names ==> |Block(names, v)| < |Block(names, v')|
  {
    if names != [] {
      BlockLengths(names[..|names| - 1], v, v', n);
    }
  }

  lemma SameEnd(a: string, b: string, a': string, b': string)
    requires a + b == a' + b' && |b| == |b'|
    ensures a == a' && b == b'
  {
    assert a == (a + b)[..|a|] && b == (a + b)[|a|..];
    assert a' == (a' + b')[..|a'|] && b' == (a' + b')[|a'|..];
  }

  lemma {:induction false} BlockTellsValues(names: seq<string>, v: map<string, string>,
                                            v': map<string, string>, n: string)
    requires forall m | m in names :: m in v && m in v' && (m != n ==> v[m] == v'[m])
    requires n in names && |v[n]| == |v'[n]| && Block(names, v) == Block(names, v')
    ensures v[n] == v'[n]
  {
    var m, init := names[|names| - 1], names[..|names| - 1];
    SameEnd(Block(init, v), Line(m, v[m]), Block(init, v'), Line(m, v'[m]));
    if m == n {
      SameEnd(m + ":" + v[m], "\n", m + ":" + v'[m], "\n");
      SameEnd(m + ":", v[m], m + ":", v'[m]);
    } else {
      assert names == init + [m];
      BlockTellsValues(init, v, v', n);
    }
  }

  /** Two signed names, equal ignoring case, at the end of an order. */
  lemma PairAtEnd(host: string, h: Header, rest: seq<string>, k: string, k': string)
    requires Covered(h, rest) && Distinct(rest) && k in h && k' in h && k != k' && k !in rest && k' !in rest
    requires forall name | name in h :: name in rest || name == k || name == k'
    requires IsSigned(k) && IsSigned(k') && Lower(k) == Lower(k')
    ensures var order := rest + [k] + [k'];
      && IsOrder(h, order)
      && Names(order) == Names(rest) + [Lower(k)] + [Lower(k)]
      && Values(host, h, order) == Values(host, h, rest)[Lower(k) := ValueOf(h, k')]
  {
    DistinctGrows(rest, k);
    DistinctGrows(rest + [k], k');
    var order := rest + [k] + [k'];
    assert order[..|order| - 1] == rest + [k] && (rest + [k])[..|rest|] == rest;
    assert Covered(h, rest + [k]) && Covered(h, order);
  }

  /** A conflict shows: the order of the conflicting pair changes the block. */
  lemma ConflictShows(host: string, h: Header, k: string, k': string) returns (order: seq<string>, order': seq<string>)
    requires k in h && k' in h && IsSigned(k) && IsSigned(k') && Lower(k) == Lower(k')
    requires ValueOf(h, k) != ValueOf(h, k')
    ensures IsOrder(h, order) && IsOrder(h, order')
    ensures CanonicalFor(host, h, order) != CanonicalFor(host, h, order')
  {
    hide Lower, ValueOf, IsSigned, Sort, Names, Values, Block;
    var rest := SomeOrder(h.Keys - {k, k'});
    assert forall i | 0 <= i < |rest| :: rest[i] in rest;
    PairAtEnd(host, h, rest, k, k');
    PairAtEnd(host, h, rest, k', k);
    order, order' := rest + [k] + [k'], rest + [k'] + [k];
    var n := Lower(k);
    var v, v' := Values(host, h, order), Values(host, h, order');
    NamesHaveValues(host, h, order);
    NamesHaveValues(host, h, order');
    var names := Sort(Names(order));
    SortSorts(Names(order));
    assert n in multiset(names) by {
      assert Names(order)[|Names(order)| - 1] == n;
    }
    BlockLengths(names, v, v', n);
    BlockLengths(names, v', v, n);
    if Block(names, v) == Block(names, v') {
      BlockTellsValues(names, v, v', n);
      assert false;
    }
  }

  ghost predicate OrderIndependent(host: string, h: Header) {
    forall order, order' | IsOrder(h, order) && IsOrder(h, order') ::
      CanonicalFor(host, h, order) == CanonicalFor(host, h, order')
  }

  /**
    canonicalizeHeaders gives the same two strings for every iteration order of
    the map exactly when signed names equal ignoring case agree in value, as they
    do trivially when the names are distinct ignoring case.
   */
  lemma OrderIndependentIffConsistent(host: string, h: Header)
    ensures OrderIndependent(host, h) <==> Consistent(h)
  {
    if Consistent(h) {
      forall order, order' | IsOrder(h, order) && IsOrder(h, order')
        ensures CanonicalFor(host, h, order) == CanonicalFor(host, h, order')
      {
        CanonicalDependsOnSigned(host, h, h, order, order');
      }
    } else {
      var k, k' :| k in h && k' in h && IsSigned(k) && IsSigned(k') && Lower(k) == Lower(k')
        && ValueOf(h, k) != ValueOf(h, k');
      var order, order' := ConflictShows(host, h, k, k');
    }
  }

  const COLLIDING: Header := map["X-Amz-Meta" := ["a"], "x-amz-meta" := ["b"]]

  /** A map on which the iteration order shows. */
  lemma CollisionShows(host: string) returns (order: seq<string>, order': seq<string>)
    ensures IsOrder(COLLIDING, order) && IsOrder(COLLIDING, order')
    ensures CanonicalFor(host, COLLIDING, order) != CanonicalFor(host, COLLIDING, order')
    ensures !Consistent(COLLIDING) && !OrderIndependent(host, COLLIDING)
  {
    hide CanonicalFor, IsOrder;
    var k, k' := "X-Amz-Meta", "x-amz-meta";
    assert Lower(k) == k' && Lower(k') == k' && "x-amz-" <= k' && k'[1] == '-';
    assert ValueOf(COLLIDING, k) == "a" && ValueOf(COLLIDING, k') == "b" by {
      assert ["a"][..0] == [] && ["b"][..0] == [];
    }
    order, order' := ConflictShows(host, COLLIDING, k, k');
  }

  // ------------------------------------------------- the list of names

  ghost predicate StrictlyIncreasing(xs: seq<string>) {
    forall i, j | 0 <= i < j < |xs| :: Leq(xs[i], xs[j]) && xs[i] != xs[j]
  }

  ghost predicate DistinctIgnoringCase(h: Header) {
    forall k, k' | k in h && k' in h && IsSigned(k) && IsSigned(k') && k != k' :: Lower(k) != Lower(k')
  }

  /**
    The signed names are host, once, and the signed headers present, in order;
    strictly increasing exactly when the headers are distinct ignoring case.
   */
  lemma SignedNamesAreExact(h: Header, order: seq<string>)
    requires IsOrder(h, order)
    ensures var names := Sort(Names(order));
      && Sorted(names)
      && multiset(names)["host"] == 1
      && (forall n :: n in names <==>
            n == "host" || ((n == "content-type" || "x-amz-" <= n) && exists k :: k in h && Lower(k) == n))
      && (DistinctIgnoringCase(h) <==> StrictlyIncreasing(names))
  {
    var names := Sort(Names(order));
    SortSorts(Names(order));
    NamesMembers(order);
    var all, values := CanonicalIsExact("", h, order);
    assert forall n :: n in names <==> MustSign(h, n);
    if DistinctIgnoringCase(h) {
      NamesOnce(h, order);
      OnceIsStrict(names);
    } else {
      var k, k' :| k in h && k' in h && IsSigned(k) && IsSigned(k') && k != k' && Lower(k) == Lower(k');
      CollisionRepeats(h, order, k, k');
      StrictIsOnce(names, Lower(k));
    }
  }

  /** Two signed names equal ignoring case leave their lower-case form in the list twice. */
  lemma CollisionRepeats(h: Header, order: seq<string>, k: string, k': string)
    requires IsOrder(h, order)
    requires k in h && k' in h && IsSigned(k) && IsSigned(k') && k != k' && Lower(k) == Lower(k')
    ensures 2 <= multiset(Sort(Names(order)))[Lower(k)]
  {
    var rest := SomeOrder(h.Keys - {k, k'});
    assert forall i | 0 <= i < |rest| :: rest[i] in rest;
    PairAtEnd("", h, rest, k, k');
    SortedNamesAgree(h, h, order, rest + [k] + [k']);
    SortSorts(Names(rest + [k] + [k']));
  }

  lemma {:induction false} StrictIsOnce(xs: seq<string>, n: string)
    ensures StrictlyIncreasing(xs) ==> multiset(xs)[n] <= 1
  {
    if StrictlyIncreasing(xs) && xs != [] {
      var init, x := xs[..|xs| - 1], xs[|xs| - 1];
      StrictIsOnce(init, n);
      assert xs == init + [x];
      assert x !in init;
    }
  }

  /** `n` is the lower-cased form of a signed name of the order. */
  ghost predicate IsSignedForm(order: seq<string>, n: string) {
    exists k :: k in order && IsSigned(k) && Lower(k) == n
  }

  lemma SignedFormSnoc(init: seq<string>, name: string, n: string)
    ensures IsSignedForm(init + [name], n) <==> IsSignedForm(init, n) || (IsSigned(name) && Lower(name) == n)
  {
    hide IsSigned, Lower;
    if k :| k in init && IsSigned(k) && Lower(k) == n {
      assert k in init + [name];
    }
    if IsSigned(name) && Lower(name) == n {
      assert name in init + [name];
    }
  }

  lemma {:induction false} NamesMembers(order: seq<string>)
    ensures forall n :: n in Names(order) <==> n == "host" || IsSignedForm(order, n)
    ensures multiset(Names(order))["host"] == 1
  {
    hide Lower, IsSignedForm;
    if order == [] {
      NoSignedForm();
    } else {
      var init, name := order[..|order| - 1], order[|order| - 1];
      NamesMembers(init);
      assert order == init + [name];
      forall n ensures n in Names(order) <==> n == "host" || IsSignedForm(order, n) {
        SignedFormSnoc(init, name, n);
      }
    }
  }

  lemma NoSignedForm()
    ensures forall n :: !IsSignedForm([], n)
  {}

  lemma {:induction false} NamesOnce(h: Header, order: seq<string>)
    requires Covered(h, order) && DistinctIgnoringCase(h)
    requires Distinct(order)
    ensures forall n :: multiset(Names(order))[n] <= 1
  {
    if order != [] {
      var init, name := order[..|order| - 1], order[|order| - 1];
      NamesOnce(h, init);
      NamesMembers(init);
      assert name in h && forall k | k in init :: k in h && k != name;
      assert IsSigned(name) ==> Lower(name) !in Names(init);
    }
  }

  lemma CountedTwice(xs: seq<string>, i: nat, j: nat)
    requires i < j < |xs| && xs[i] == xs[j]
    ensures 2 <= multiset(xs)[xs[i]]
  {
    assert xs == xs[..i] + [xs[i]] + xs[i + 1..j] + [xs[j]] + xs[j + 1..];
  }

  lemma OnceIsStrict(xs: seq<string>)
    requires Sorted(xs) && forall n :: multiset(xs)[n] <= 1
    ensures StrictlyIncreasing(xs)
  {
    forall i, j | 0 <= i < j < |xs| ensures Leq(xs[i], xs[j]) && xs[i] != xs[j] {
      if xs[i] == xs[j] {
        CountedTwice(xs, i, j);
        assert false;
      }
    }
  }

  // ------------------------------------------------- signing again

  /**
    Signing a signed request again, with the same signer, payload, service,
    region and time, changes nothing, in whatever orders the two maps iterate.
   */
  lemma SigningIsAFixedPoint(prim: Primitives, s: Subject, h: Header, once: Header, twice: Header,
                             order: seq<string>, order': seq<string>)
    requires Consistent(Prepared(prim, s, h))
    requires SignedFrom(prim, s, h, once, order) && SignedFrom(prim, s, once, twice, order')
    ensures twice == once
  {
    hide Prepared, Authorization, CanonicalFor, Consistent;
    var p, auth := Prepared(prim, s, h), Authorization(prim, s, CanonicalFor(s.host, Prepared(prim, s, h), order));
    PreparingAgain(prim, s, h, auth);
    AuthorizationIsUnsigned();
    CanonicalDependsOnSigned(s.host, p, once, order, order');
  }

  lemma PreparingAgain(prim: Primitives, s: Subject, h: Header, auth: string)
    ensures var once := Prepared(prim, s, h)["Authorization" := [auth]];
      Prepared(prim, s, once) == once
  {}

  lemma AuthorizationIsUnsigned()
    ensures !IsSigned("Authorization")
  {
    assert Lower("Authorization")[0] == 'a';
    assert "content-type"[0] == 'c' && "x-amz-"[0] == 'x';
  }

  /** The Authorization value does not depend on headers outside the signed set. */
  lemma UnsignedHeadersDoNotMatter(prim: Primitives, s: Subject, h: Header, h': Header, signed: Header, signed': Header,
                                   order: seq<string>, order': seq<string>)
    requires SameSigned(h, h') && Consistent(Prepared(prim, s, h))
    requires SignedFrom(prim, s, h, signed, order) && SignedFrom(prim, s, h', signed', order')
    ensures signed["Authorization"] == signed'["Authorization"]
  {
    var p, p' := Prepared(prim, s, h), Prepared(prim, s, h');
    assert SameSigned(p, p');
    CanonicalDependsOnSigned(s.host, p, p', order, order');
  }

  // ------------------------------------------------- the query

  lemma CanonicalQueryIsSortedSplit(q: string)
    ensures CanonicalQuery(q) == Join(Sort(Split(q, '&')), '&')
    ensures Split(CanonicalQuery(q), '&') == Sort(Split(q, '&'))
  {
    var parts := Split(q, '&');
    if q == "" {
      assert parts == [""] && Sort(parts) == Insert("", Sort(parts[1..])) == [""];
    }
    SplitIsFree(q, '&');
    SortSorts(parts);
    forall i | 0 <= i < |parts| ensures Free(Sort(parts)[i], '&') {
      assert Sort(parts)[i] in multiset(parts);
    }
    SplitUndoesJoin(Sort(parts), '&');
  }

  lemma CanonicalQueryIsIdempotent(q: string)
    ensures CanonicalQuery(CanonicalQuery(q)) == CanonicalQuery(q)
  {
    CanonicalQueryIsSortedSplit(q);
    CanonicalQueryIsSortedSplit(CanonicalQuery(q));
    SortSorts(Split(q, '&'));
    SortIsCanonical(Sort(Split(q, '&')), Split(q, '&'));
  }

  /** Two raw queries canonicalise alike exactly when they have the same parts, counted. */
  lemma QueriesAlikeIffSameParts(q: string, q': string)
    ensures CanonicalQuery(q) == CanonicalQuery(q') <==> multiset(Split(q, '&')) == multiset(Split(q', '&'))
  {
    CanonicalQueryIsSortedSplit(q);
    CanonicalQueryIsSortedSplit(q');
    SortIsCanonical(Split(q, '&'), Split(q', '&'));
  }
}
