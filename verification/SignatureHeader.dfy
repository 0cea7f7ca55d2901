/**
 * HTTP signatures between servers: the sender prints a Signature header, the receiver parses it
 * and rebuilds the string that was signed. Signing and verifying are a pair of function values.
 */
module SignatureHeader {
  import opened Core
  import opened Text

  const QUOTE: string := "\""

  const KEY_ID: string := "keyId"

  const SIGNATURE: string := "signature"

  const HEADERS: string := "headers"

  const REQUEST_TARGET: string := "(request-target)"

  const SIGNED_HEADERS: seq<string> := [REQUEST_TARGET, "host", "date", "digest"]

  datatype Fields = Fields(keyId: string, signature: string, headers: seq<string>)

  datatype Draft = Draft(keyId: Option<string>, signature: Option<string>, headers: Option<seq<string>>)

  datatype ParseError = Malformed | MissingKeyId | MissingSignature | MissingHeaders | DateNotSigned

  predicate IsQuote(c: char) { c == '"' }

  // ---------------------------------------------------------------------
  // Parsing
  // ---------------------------------------------------------------------

  predicate HasEquals(part: string) { SplitOnce(Trim(part), '=').Some? }

  function NameOf(part: string): string
    requires HasEquals(part)
  {
    Trim(SplitOnce(Trim(part), '=').value.0)
  }

  function ValueOf(part: string): string
    requires HasEquals(part)
  {
    TrimBy(Trim(SplitOnce(Trim(part), '=').value.1), IsQuote)
  }

  function HeaderList(value: string): (r: seq<string>)
    ensures |r| == |Words(value)|
  {
    var words := Words(value);
    seq(|words|, i requires 0 <= i < |words| => TrimLower(words[i]))
  }

  /** One round of the loop: a later part of the same name replaces an earlier one. */
  function Absorb(d: Draft, part: string): Draft
    requires HasEquals(part)
  {
    var name := NameOf(part);
    if name == KEY_ID then d.(keyId := Some(ValueOf(part)))
    else if name == SIGNATURE then d.(signature := Some(ValueOf(part)))
    else if name == HEADERS then d.(headers := Some(HeaderList(ValueOf(part))))
    else d
  }

  function Finish(d: Draft): Result<Fields, ParseError> {
    if d.keyId.None? then Err(MissingKeyId)
    else if d.signature.None? then Err(MissingSignature)
    else if d.headers.None? then Err(MissingHeaders)
    else if "date" !in d.headers.value then Err(DateNotSigned)
    else Ok(Fields(d.keyId.value, d.signature.value, d.headers.value))
  }

  predicate WellFormed(parts: seq<string>) { forall part | part in parts :: HasEquals(part) }

  /** The value carried by the last part called `name`. */
  function LastValue(parts: seq<string>, name: string): Option<string>
    requires WellFormed(parts)
  {
    if parts == [] then None
    else
      var last := parts[|parts| - 1];
      if NameOf(last) == name then Some(ValueOf(last)) else LastValue(parts[..|parts| - 1], name)
  }

  /** What the header says, read as a whole: the last part of each name counts. */
  function Reading(parts: seq<string>): Draft
    requires WellFormed(parts)
  {
    var list := LastValue(parts, HEADERS);
    Draft(LastValue(parts, KEY_ID), LastValue(parts, SIGNATURE),
          if list.None? then None else Some(HeaderList(list.value)))
  }

  function Parse(header: string): Result<Fields, ParseError> {
    var parts := Split(header, ',');
    if WellFormed(parts) then Finish(Reading(parts)) else Err(Malformed)
  }

  method ParseSignatureHeader(header: string) returns (r: Result<Fields, ParseError>)
    ensures r == Parse(header)
  {
    var parts := Split(header, ',');
    var d := Draft(None, None, None);
    for i := 0 to |parts|
      invariant WellFormed(parts[..i])
      invariant d == Reading(parts[..i])
    {
      assert parts[i] in parts;
      if !HasEquals(parts[i]) { return Err(Malformed); }
      assert parts[..i + 1] == parts[..i] + [parts[i]];
      assert parts[..i + 1][..i] == parts[..i];
      ReadingGrows(parts[..i], parts[i]);
      d := Absorb(d, parts[i]);
    }
    assert parts[..|parts|] == parts;
    r := Finish(d);
  }

  lemma {:induction false} ReadingGrows(parts: seq<string>, part: string)
    requires WellFormed(parts) && HasEquals(part)
    ensures WellFormed(parts + [part])
    ensures Reading(parts + [part]) == Absorb(Reading(parts), part)
  {}

  // ---------------------------------------------------------------------
  // Printing, and the round trip
  // ---------------------------------------------------------------------

  function Assign(name: string, value: string): string { name + "=" + (QUOTE + value + QUOTE) }

  function Print(keyId: string, signature: string): string {
    Assign(KEY_ID, keyId) + "," + (Assign("algorithm", "ed25519") + ","
      + (Assign(HEADERS, Join(SIGNED_HEADERS, " ")) + "," + Assign(SIGNATURE, signature)))
  }

  /** What can stand between double quotes in a comma-separated header and be read back. */
  predicate Quotable(s: string) { Lacks(s, ',') && CleanEnds(s, IsQuote) }

  /** The key id and signature come back exactly when neither contains a comma or an outer quote. */
  lemma {:induction false} RoundTripIff(keyId: string, signature: string)
    ensures Parse(Print(keyId, signature)) == Ok(Fields(keyId, signature, SIGNED_HEADERS))
       <==> Quotable(keyId) && Quotable(signature)
  {
    if Quotable(keyId) && Quotable(signature) {
      RoundTrip(keyId, signature);
    }
    ParsedValuesQuotable(Print(keyId, signature));
  }

  lemma {:induction false} RoundTrip(keyId: string, signature: string)
    requires Quotable(keyId) && Quotable(signature)
    ensures Parse(Print(keyId, signature)) == Ok(Fields(keyId, signature, SIGNED_HEADERS))
  {
    PrintedParts(keyId, signature);
    PrintedReading(keyId, signature);
    assert "date" == SIGNED_HEADERS[2];
  }

  function PartsOf(keyId: string, signature: string): seq<string> {
    [Assign(KEY_ID, keyId), Assign("algorithm", "ed25519"), Assign(HEADERS, Join(SIGNED_HEADERS, " ")), Assign(SIGNATURE, signature)]
  }

  lemma {:induction false} PrintedReading(keyId: string, signature: string)
    requires Quotable(keyId) && Quotable(signature)
    ensures WellFormed(PartsOf(keyId, signature))
    ensures Reading(PartsOf(keyId, signature)) == Draft(Some(keyId), Some(signature), Some(SIGNED_HEADERS))
  {
    var list := Join(SIGNED_HEADERS, " ");
    SignedListReadBack();
    AssignReadBack(KEY_ID, keyId);
    AssignReadBack("algorithm", "ed25519");
    AssignReadBack(HEADERS, list);
    AssignReadBack(SIGNATURE, signature);
    FourPartReading(Assign(KEY_ID, keyId), Assign("algorithm", "ed25519"), Assign(HEADERS, list), Assign(SIGNATURE, signature));
  }

  lemma {:induction false} FourPartReading(a: string, b: string, c: string, d: string)
    requires HasEquals(a) && HasEquals(b) && HasEquals(c) && HasEquals(d)
    requires NameOf(a) == KEY_ID && NameOf(b) == "algorithm" && NameOf(c) == HEADERS && NameOf(d) == SIGNATURE
    ensures WellFormed([a, b, c, d])
    ensures Reading([a, b, c, d]) == Draft(Some(ValueOf(a)), Some(ValueOf(d)), Some(HeaderList(ValueOf(c))))
  {
    ReadingGrows([], a);
    ReadingGrows([a], b);
    ReadingGrows([a, b], c);
    ReadingGrows([a, b, c], d);
    assert [] + [a] == [a] && [a] + [b] == [a, b] && [a, b] + [c] == [a, b, c] && [a, b, c] + [d] == [a, b, c, d];
  }

  lemma {:induction false} PrintedParts(keyId: string, signature: string)
    requires Quotable(keyId) && Quotable(signature)
    ensures Split(Print(keyId, signature), ',') == PartsOf(keyId, signature)
  {
    SignedListQuotable();
    var list := Join(SIGNED_HEADERS, " ");
    AssignLacksComma(KEY_ID, keyId);
    AssignLacksComma("algorithm", "ed25519");
    AssignLacksComma(HEADERS, list);
    AssignLacksComma(SIGNATURE, signature);
    SplitFour(Assign(KEY_ID, keyId), Assign("algorithm", "ed25519"), Assign(HEADERS, list), Assign(SIGNATURE, signature), ',');
  }

  lemma {:induction false} AssignLacksComma(name: string, value: string)
    requires name in {KEY_ID, "algorithm", HEADERS, SIGNATURE} && Lacks(value, ',')
    ensures Lacks(Assign(name, value), ',')
  {}

  lemma {:induction false} SplitFour(a: string, b: string, c: string, d: string, separator: char)
    requires Lacks(a, separator) && Lacks(b, separator) && Lacks(c, separator) && Lacks(d, separator)
    ensures Split(a + [separator] + (b + [separator] + (c + [separator] + d)), separator) == [a, b, c, d]
  {
    SplitHead(a, separator, b + [separator] + (c + [separator] + d));
    SplitHead(b, separator, c + [separator] + d);
    SplitHead(c, separator, d);
    SplitWhole(d, separator);
  }

  lemma {:induction false} SignedListText()
    ensures Join(SIGNED_HEADERS, " ") == "(request-target) host date digest"
  {
    JoinFour(REQUEST_TARGET, "host", "date", "digest", " ");
  }

  lemma {:induction false} JoinFour(a: string, b: string, c: string, d: string, separator: string)
    ensures Join([a, b, c, d], separator) == a + separator + b + separator + c + separator + d
  {
    assert [a, b, c, d][1..] == [b, c, d] && [b, c, d][1..] == [c, d] && [c, d][1..] == [d];
    assert Join([c, d], separator) == c + separator + d;
    assert Join([b, c, d], separator) == b + separator + (c + separator + d);
    assert a + separator + (b + separator + (c + separator + d)) == a + separator + b + separator + c + separator + d;
  }

  lemma {:induction false} SignedListReadBack()
    ensures Quotable(Join(SIGNED_HEADERS, " "))
    ensures HeaderList(Join(SIGNED_HEADERS, " ")) == SIGNED_HEADERS
  {
    forall w | w in SIGNED_HEADERS ensures IsWord(w) && TrimLower(w) == w { SignedNameFixed(w); }
    HeaderListOfJoin(SIGNED_HEADERS);
    SignedListQuotable();
  }

  lemma {:induction false} SignedListQuotable()
    ensures Quotable(Join(SIGNED_HEADERS, " "))
  {
    SignedListText();
  }

  lemma {:induction false} HeaderListOfJoin(ws: seq<string>)
    requires forall w | w in ws :: IsWord(w) && TrimLower(w) == w
    ensures HeaderList(Join(ws, " ")) == ws
  {
    WordsOfJoin(ws);
  }

  lemma {:induction false} SignedNameFixed(w: string)
    requires w in SIGNED_HEADERS
    ensures IsWord(w) && TrimLower(w) == w && Lower(w) == w
  {
    TrimByFixed(w, IsWhitespace);
    assert Lower(w) == w;
  }

  lemma {:induction false} AssignReadBack(name: string, value: string)
    requires name in {KEY_ID, "algorithm", HEADERS, SIGNATURE} && Quotable(value)
    ensures HasEquals(Assign(name, value)) && NameOf(Assign(name, value)) == name && ValueOf(Assign(name, value)) == value
  {
    var part := Assign(name, value);
    var quoted := QUOTE + value + QUOTE;
    TrimByFixed(part, IsWhitespace);
    SplitOnceAt(name, '=', quoted);
    TrimByFixed(name, IsWhitespace);
    TrimByFixed(quoted, IsWhitespace);
    TrimQuotes(value);
  }

  lemma {:induction false} TrimQuotes(value: string)
    requires CleanEnds(value, IsQuote)
    ensures TrimBy(QUOTE + value + QUOTE, IsQuote) == value
  {
    var quoted := QUOTE + value + QUOTE;
    assert quoted[1..] == value + QUOTE;
    if value == [] {
      assert DropWhile(quoted, IsQuote) == DropWhile(quoted[1..], IsQuote) == DropWhile(quoted[1..][1..], IsQuote);
      assert quoted[1..][1..] == [];
    } else {
      var t := value + QUOTE;
      assert DropWhile(quoted, IsQuote) == DropWhile(t, IsQuote) == t;
      assert t[..|t| - 1] == value;
      assert DropWhileEnd(t, IsQuote) == DropWhileEnd(value, IsQuote) == value;
    }
  }

  /** No header whatever can yield a key id or signature with a comma or an outer quote. */
  lemma {:induction false} ParsedValuesQuotable(header: string)
    ensures Parse(header).Ok? ==> Quotable(Parse(header).value.keyId) && Quotable(Parse(header).value.signature)
  {
    var parts := Split(header, ',');
    if WellFormed(parts) {
      PiecesLack(header, ',');
      LastValueQuotable(parts, KEY_ID);
      LastValueQuotable(parts, SIGNATURE);
    }
  }

  lemma {:induction false} LastValueQuotable(parts: seq<string>, name: string)
    requires WellFormed(parts) && forall part | part in parts :: Lacks(part, ',')
    ensures LastValue(parts, name).Some? ==> Quotable(LastValue(parts, name).value)
  {
    if parts != [] {
      var last := parts[|parts| - 1];
      assert last in parts;
      var raw := SplitOnce(Trim(last), '=').value.1;
      TrimByLacks(last, IsWhitespace, ',');
      SplitOnceLacks(Trim(last), '=', ',');
      TrimByLacks(raw, IsWhitespace, ',');
      TrimByLacks(Trim(raw), IsQuote, ',');
      TrimByClean(Trim(raw), IsQuote);
      LastValueQuotable(parts[..|parts| - 1], name);
    }
  }

  // ---------------------------------------------------------------------
  // The signed string
  // ---------------------------------------------------------------------

  /** Header values by lower-case name; `None` for a value that is not visible ASCII text. */
  type HeaderMap = map<string, Option<string>>

  datatype Outgoing = Outgoing(verb: string, path: string, query: Option<string>, host: Option<string>, headers: HeaderMap)

  datatype Received = Received(verb: string, path: string, pathAndQuery: Option<string>, headers: HeaderMap)

  datatype BuildError = NoHost | NoDate | NoDigest | SigningFailed

  datatype CanonicalError = MissingHeader(name: string) | UnreadableHeader(name: string)

  function Readable(headers: HeaderMap, name: string): Option<string> {
    if name in headers then headers[name] else None
  }

  function OutgoingTarget(o: Outgoing): string {
    if o.query.Some? then o.path + "?" + o.query.value else o.path
  }

  function ReceivedTarget(r: Received): string {
    if r.pathAndQuery.Some? then r.pathAndQuery.value else r.path
  }

  function RequestLine(verb: string, target: string): string { HeaderLine(REQUEST_TARGET, Lower(verb) + " " + target) }

  function HeaderLine(name: string, value: string): string { name + ": " + value }

  function SignedString(verb: string, target: string, host: string, date: string, digest: string): string {
    RequestLine(verb, target) + "\n" + HeaderLine("host", host) + "\n" + HeaderLine("date", date)
    + "\n" + HeaderLine("digest", digest)
  }

  /** The string the sender signs, or why it cannot. */
  function ToSign(o: Outgoing): Result<string, BuildError> {
    var date := Readable(o.headers, "date");
    var digest := Readable(o.headers, "digest");
    if o.host.None? then Err(NoHost)
    else if date.None? then Err(NoDate)
    else if digest.None? then Err(NoDigest)
    else Ok(SignedString(o.verb, OutgoingTarget(o), o.host.value, date.value, digest.value))
  }

  function BuildSignatureHeader(o: Outgoing, keyId: string, sign: string -> Option<string>): Result<string, BuildError> {
    match ToSign(o)
    case Err(e) => Err(e)
    case Ok(text) =>
      match sign(text)
      case None => Err(SigningFailed)
      case Some(signature) => Ok(Print(keyId, signature))
  }

  /** The line contributed by one listed header. Header names are looked up without regard to case. */
  function Line(r: Received, h: string): Result<string, CanonicalError> {
    if h == REQUEST_TARGET then Ok(RequestLine(r.verb, ReceivedTarget(r)))
    else if Lower(h) !in r.headers then Err(MissingHeader(h))
    else if r.headers[Lower(h)].None? then Err(UnreadableHeader(h))
    else Ok(HeaderLine(h, r.headers[Lower(h)].value))
  }

  predicate AllLines(r: Received, hs: seq<string>) { forall h | h in hs :: Line(r, h).Ok? }

  function Lines(r: Received, hs: seq<string>): (lines: seq<string>)
    requires AllLines(r, hs)
    ensures |lines| == |hs|
  {
    seq(|hs|, i requires 0 <= i < |hs| => assert hs[i] in hs; Line(r, hs[i]).value)
  }

  /**
   * The receiver's canonical string: every listed header's line, joined by newlines, unless some
   * listed header is missing or unreadable; then the first such header is reported.
   */
  method CanonicalizeSignedString(r: Received, hs: seq<string>) returns (c: Result<string, CanonicalError>)
    ensures Canonical(r, hs) == if c.Ok? then Some(c.value) else None
    ensures c.Err? ==> exists i :: 0 <= i < |hs| && Line(r, hs[i]) == Err(c.error) && AllLines(r, hs[..i])
  {
    var parts: seq<string> := [];
    for i := 0 to |hs|
      invariant AllLines(r, hs[..i])
      invariant parts == Lines(r, hs[..i])
    {
      var line := Line(r, hs[i]);
      if line.Err? {
        assert hs[i] in hs;
        return Err(line.error);
      }
      assert hs[..i + 1] == hs[..i] + [hs[i]];
      parts := parts + [line.value];
    }
    assert hs[..|hs|] == hs;
    c := Ok(Join(parts, "\n"));
  }

  function Canonical(r: Received, hs: seq<string>): Option<string> {
    if AllLines(r, hs) then Some(Join(Lines(r, hs), "\n")) else None
  }

  predicate SignedHeadersReadable(r: Received) {
    Readable(r.headers, "host").Some? && Readable(r.headers, "date").Some? && Readable(r.headers, "digest").Some?
  }

  /** What the receiver rebuilds from the four signed headers has the sender's format. */
  lemma {:induction false} CanonicalFormat(r: Received)
    ensures Canonical(r, SIGNED_HEADERS).Some? <==> SignedHeadersReadable(r)
    ensures SignedHeadersReadable(r) ==>
              Canonical(r, SIGNED_HEADERS) == Some(SignedString(r.verb, ReceivedTarget(r),
                r.headers["host"].value, r.headers["date"].value, r.headers["digest"].value))
  {
    SignedNameFixed("host");
    SignedNameFixed("date");
    SignedNameFixed("digest");
    if AllLines(r, SIGNED_HEADERS) {
      assert "host" in SIGNED_HEADERS && "date" in SIGNED_HEADERS && "digest" in SIGNED_HEADERS;
    }
    if SignedHeadersReadable(r) {
      var lines := Lines(r, SIGNED_HEADERS);
      assert lines == [lines[0], lines[1], lines[2], lines[3]];
      JoinFour(lines[0], lines[1], lines[2], lines[3], "\n");
    }
  }

  // ---------------------------------------------------------------------
  // From the sender to the receiver
  // ---------------------------------------------------------------------

  predicate OneLine(s: string) { Lacks(s, '\n') }

  /** An HTTP method is a token: no blanks, no line breaks. */
  predicate IsVerb(s: string) { OneLine(s) && Lacks(s, ' ') }

  /** What HTTP itself rules out of a request line and of header values. */
  predicate Transportable(verb: string, target: string, headers: HeaderMap) {
    IsVerb(verb) && OneLine(target) && forall h | h in headers && headers[h].Some? :: OneLine(headers[h].value)
  }

  lemma {:induction false} LowerKeepsLacking(s: string, c: char)
    requires Lacks(s, c) && (c == ' ' || c == '\n')
    ensures Lacks(Lower(s), c)
  {}

  lemma {:induction false} SignedStringSplits(verb: string, target: string, host: string, date: string, digest: string)
    requires IsVerb(verb) && OneLine(target) && OneLine(host) && OneLine(date) && OneLine(digest)
    ensures Split(SignedString(verb, target, host, date, digest), '\n') ==
            [RequestLine(verb, target), HeaderLine("host", host), HeaderLine("date", date), HeaderLine("digest", digest)]
  {
    LowerKeepsLacking(verb, '\n');
    var a, b, c, d := RequestLine(verb, target), HeaderLine("host", host), HeaderLine("date", date), HeaderLine("digest", digest);
    assert SignedString(verb, target, host, date, digest) == a + "\n" + (b + "\n" + (c + "\n" + d));
    SplitFour(a, b, c, d, '\n');
  }

  lemma {:induction false} HeaderLineInjective(name: string, x: string, y: string)
    requires HeaderLine(name, x) == HeaderLine(name, y)
    ensures x == y
  {
    var n := |name + ": "|;
    assert HeaderLine(name, x)[n..] == x && HeaderLine(name, y)[n..] == y;
  }

  lemma {:induction false} RequestLineInjective(v: string, t: string, v': string, t': string)
    requires IsVerb(v) && IsVerb(v') && RequestLine(v, t) == RequestLine(v', t')
    ensures Lower(v) == Lower(v') && t == t'
  {
    HeaderLineInjective(REQUEST_TARGET, Lower(v) + " " + t, Lower(v') + " " + t');
    LowerKeepsLacking(v, ' ');
    LowerKeepsLacking(v', ' ');
    SplitOnceAt(Lower(v), ' ', t);
    SplitOnceAt(Lower(v'), ' ', t');
  }

  /** Two requests have the same signed string only when every signed component is the same. */
  lemma {:induction false} SignedStringInjective(v: string, t: string, h: string, d: string, g: string,
                              v': string, t': string, h': string, d': string, g': string)
    requires IsVerb(v) && OneLine(t) && OneLine(h) && OneLine(d) && OneLine(g)
    requires IsVerb(v') && OneLine(t') && OneLine(h') && OneLine(d') && OneLine(g')
    ensures SignedString(v, t, h, d, g) == SignedString(v', t', h', d', g')
       <==> Lower(v) == Lower(v') && t == t' && h == h' && d == d' && g == g'
  {
    if SignedString(v, t, h, d, g) == SignedString(v', t', h', d', g') {
      SignedStringSplits(v, t, h, d, g);
      SignedStringSplits(v', t', h', d', g');
      RequestLineInjective(v, t, v', t');
      HeaderLineInjective("host", h, h');
      HeaderLineInjective("date", d, d');
      HeaderLineInjective("digest", g, g');
    }
  }

  /** The signed parts of the request arrived as they were sent. */
  predicate SameSignedParts(o: Outgoing, r: Received) {
    && Lower(o.verb) == Lower(r.verb)
    && OutgoingTarget(o) == ReceivedTarget(r)
    && o.host.Some? && Readable(r.headers, "host") == o.host
    && Readable(o.headers, "date").Some? && Readable(r.headers, "date") == Readable(o.headers, "date")
    && Readable(o.headers, "digest").Some? && Readable(r.headers, "digest") == Readable(o.headers, "digest")
  }

  type Verifier = (string, string) -> bool

  /** The receiver's check: the cached key first, then the refetched one. */
  predicate Accepts(r: Received, cached: Verifier, refetched: Verifier) {
    && Readable(r.headers, SIGNATURE).Some?
    && var fields := Parse(r.headers[SIGNATURE].value);
    && fields.Ok?
    && var text := Canonical(r, fields.value.headers);
    && text.Some?
    && (cached(text.value, fields.value.signature) || refetched(text.value, fields.value.signature))
  }

  /** A signature verifies exactly the text it was made for, and is printable (base64). */
  ghost predicate Matching(sign: string -> Option<string>, verifies: Verifier) {
    forall m: string | sign(m).Some? ::
      Quotable(sign(m).value) && forall n: string :: verifies(n, sign(m).value) <==> n == m
  }

  /** Another key, such as the sender's previous one, does not verify a current signature for another text. */
  ghost predicate NoCrossVerification(sign: string -> Option<string>, other: Verifier) {
    forall m: string, n: string | sign(m).Some? && other(n, sign(m).value) :: n == m
  }

  /** The verifier's canonical string equals the signed one exactly when the signed parts match. */
  lemma {:induction false} CanonicalMatchesIff(o: Outgoing, r: Received)
    requires ToSign(o).Ok? && OneLine(o.host.value)
    requires Transportable(o.verb, OutgoingTarget(o), o.headers)
    requires Transportable(r.verb, ReceivedTarget(r), r.headers)
    ensures Canonical(r, SIGNED_HEADERS) == Some(ToSign(o).value) <==> SameSignedParts(o, r)
  {
    CanonicalFormat(r);
    if SignedHeadersReadable(r) {
      SignedStringInjective(o.verb, OutgoingTarget(o), o.host.value, o.headers["date"].value, o.headers["digest"].value,
                            r.verb, ReceivedTarget(r), r.headers["host"].value, r.headers["date"].value, r.headers["digest"].value);
    }
  }

  /**
   * A signed request is accepted exactly when its signed parts arrive unchanged, whichever key was
   * cached: the sender's present one, a previous one that still verifies its own signatures, or any other.
   */
  lemma {:induction false} SignedRequestAcceptedIff(o: Outgoing, keyId: string, sign: string -> Option<string>, verifies: Verifier, stale: Verifier, r: Received)
    requires BuildSignatureHeader(o, keyId, sign).Ok? && Quotable(keyId) && Matching(sign, verifies)
    requires NoCrossVerification(sign, stale)
    requires OneLine(o.host.value)
    requires Transportable(o.verb, OutgoingTarget(o), o.headers)
    requires Transportable(r.verb, ReceivedTarget(r), r.headers)
    requires Readable(r.headers, SIGNATURE) == Some(BuildSignatureHeader(o, keyId, sign).value)
    ensures Accepts(r, stale, verifies) <==> SameSignedParts(o, r)
  {
    var text := ToSign(o).value;
    RoundTripIff(keyId, sign(text).value);
    CanonicalMatchesIff(o, r);
  }

  /**
   * The sender signs the host without its port while HTTP carries the port in the Host header,
   * so a delivery to an explicit port never matches.
   */
  lemma {:induction false} ExplicitPortNeverMatches(o: Outgoing, r: Received, port: string)
    requires o.host.Some? && Readable(r.headers, "host") == Some(o.host.value + ":" + port)
    ensures !SameSignedParts(o, r)
  {
    assert |o.host.value + ":" + port| > |o.host.value|;
  }

  // ---------------------------------------------------------------------
  // The texts themselves, and the errors
  // ---------------------------------------------------------------------

  function Quoted(value: string): string { "\"" + value + "\"" }

  /** The header as it goes over the wire. */
  lemma {:induction false} HeaderText(keyId: string, signature: string)
    ensures Print(keyId, signature) ==
            "keyId=" + Quoted(keyId) + ("," + ("algorithm=" + Quoted("ed25519"))
            + ("," + ("headers=" + Quoted("(request-target) host date digest")) + ("," + ("signature=" + Quoted(signature)))))
  {
    SignedListText();
    Commas(Assign(KEY_ID, keyId), Assign("algorithm", "ed25519"), Assign(HEADERS, "(request-target) host date digest"), Assign(SIGNATURE, signature));
    AssignText("keyId", keyId);
    AssignText("algorithm", "ed25519");
    AssignText("headers", "(request-target) host date digest");
    AssignText("signature", signature);
  }

  lemma {:induction false} Commas(a: string, b: string, c: string, d: string)
    ensures a + "," + (b + "," + (c + "," + d)) == a + ("," + b + ("," + c + ("," + d)))
  {}

  lemma {:induction false} AssignText(name: string, value: string)
    ensures Assign(name, value) == name + "=" + Quoted(value)
  {}

  /** The signed text, line by line. */
  lemma {:induction false} SignedText(verb: string, target: string, host: string, date: string, digest: string)
    ensures SignedString(verb, target, host, date, digest) ==
            "(request-target): " + Lower(verb) + " " + target + "\nhost: " + host + "\ndate: " + date + "\ndigest: " + digest
  {
    assert RequestLine(verb, target) == "(request-target): " + Lower(verb) + " " + target;
    assert "\n" + HeaderLine("host", host) == "\nhost: " + host;
    assert "\n" + HeaderLine("date", date) == "\ndate: " + date;
    assert "\n" + HeaderLine("digest", digest) == "\ndigest: " + digest;
    var a := RequestLine(verb, target);
    Associative(a, "\n", HeaderLine("host", host));
    Associative(a + "\nhost: " + host, "\n", HeaderLine("date", date));
    Associative(a + "\nhost: " + host + "\ndate: " + date, "\n", HeaderLine("digest", digest));
    Associative(a, "\nhost: ", host);
    Associative(a + "\nhost: " + host, "\ndate: ", date);
    Associative(a + "\nhost: " + host + "\ndate: " + date, "\ndigest: ", digest);
  }

  /** The target of a request is its path, with the query after a question mark if it has one. */
  lemma {:induction false} Targets(o: Outgoing, r: Received)
    ensures OutgoingTarget(o) == o.path + if o.query.Some? then "?" + o.query.value else ""
    ensures ReceivedTarget(r) == if r.pathAndQuery.Some? then r.pathAndQuery.value else r.path
  {}

  /** A header is accepted exactly when all parts are assignments, the three names occur and the date is among the signed headers. */
  lemma {:induction false} ParseAcceptsIff(header: string)
    ensures var parts := Split(header, ',');
            Parse(header).Ok? <==>
              && (forall part | part in parts :: '=' in Trim(part))
              && WellFormed(parts) && LastValue(parts, "keyId").Some? && LastValue(parts, "signature").Some?
              && LastValue(parts, "headers").Some? && "date" in HeaderList(LastValue(parts, "headers").value)
  {
    HasEqualsIff();
  }

  lemma {:induction false} HasEqualsIff()
    ensures forall part :: HasEquals(part) <==> '=' in Trim(part)
  {
    forall part ensures HasEquals(part) <==> '=' in Trim(part) {
      SplitOnceMeans(Trim(part), '=');
      assert Lacks(Trim(part), '=') <==> '=' !in Trim(part);
    }
  }

  /** A part that assigns nothing is reported first; then what is missing, in the order key id, signature, header list, date. */
  lemma {:induction false} ParseErrors(header: string)
    ensures Parse(header) == Err(Malformed) <==> exists part | part in Split(header, ',') :: '=' !in Trim(part)
    ensures WellFormed(Split(header, ',')) ==>
            var parts := Split(header, ',');
            && (Parse(header) == Err(MissingKeyId) <==> LastValue(parts, "keyId").None?)
            && (Parse(header) == Err(MissingSignature) <==> LastValue(parts, "keyId").Some? && LastValue(parts, "signature").None?)
            && (Parse(header) == Err(MissingHeaders) <==>
                  LastValue(parts, "keyId").Some? && LastValue(parts, "signature").Some? && LastValue(parts, "headers").None?)
            && Parse(header) != Err(Malformed)
  {
    HasEqualsIff();
  }

  predicate Named(parts: seq<string>, i: nat, name: string)
    requires WellFormed(parts) && i < |parts|
  {
    assert parts[i] in parts;
    NameOf(parts[i]) == name
  }

  /** A value is what the last part of that name assigns; parts of other names do not matter. */
  lemma {:induction false} LastValueMeans(parts: seq<string>, name: string) returns (i: int)
    requires WellFormed(parts)
    ensures -1 <= i < |parts| && (i == -1 <==> LastValue(parts, name).None?)
    ensures i >= 0 ==> Named(parts, i, name) && parts[i] in parts && LastValue(parts, name) == Some(ValueOf(parts[i]))
    ensures forall j | i < j < |parts| :: !Named(parts, j, name)
  {
    if parts == [] {
      i := -1;
    } else if Named(parts, |parts| - 1, name) {
      i := |parts| - 1;
    } else {
      var n := |parts| - 1;
      i := LastValueMeans(parts[..n], name);
      forall j | i < j < n ensures !Named(parts, j, name) { NamedInFront(parts, n, j, name); }
      if i >= 0 { NamedInFront(parts, n, i, name); }
    }
  }

  lemma {:induction false} NamedInFront(parts: seq<string>, n: nat, j: nat, name: string)
    requires WellFormed(parts) && j < n <= |parts|
    ensures WellFormed(parts[..n]) && Named(parts[..n], j, name) == Named(parts, j, name) && parts[..n][j] == parts[j] && parts[j] in parts
  {}

  /** Which header line is rebuilt, and which error a header that cannot be rebuilt gives. */
  lemma {:induction false} LineMeans(r: Received, h: string)
    ensures h == "(request-target)" ==> Line(r, h) == Ok("(request-target): " + Lower(r.verb) + " " + ReceivedTarget(r))
    ensures h != "(request-target)" && Lower(h) !in r.headers ==> Line(r, h) == Err(MissingHeader(h))
    ensures h != "(request-target)" && Lower(h) in r.headers && r.headers[Lower(h)].None? ==> Line(r, h) == Err(UnreadableHeader(h))
    ensures h != "(request-target)" && Lower(h) in r.headers && r.headers[Lower(h)].Some? ==>
              Line(r, h) == Ok(h + ": " + r.headers[Lower(h)].value)
  {
    assert REQUEST_TARGET + ": " == "(request-target): ";
    Associative("(request-target): ", Lower(r.verb), " ");
    Associative("(request-target): ", Lower(r.verb) + " ", ReceivedTarget(r));
  }

  /** A header is built exactly when host, date and digest are there and the key signs; what is missing is reported in that order. */
  lemma {:induction false} BuildIff(o: Outgoing, keyId: string, sign: string -> Option<string>)
    ensures var (built, date, digest) := (BuildSignatureHeader(o, keyId, sign), Readable(o.headers, "date"), Readable(o.headers, "digest"));
            && (o.host.None? <==> built == Err(NoHost))
            && (o.host.Some? && date.None? <==> built == Err(NoDate))
            && (o.host.Some? && date.Some? && digest.None? <==> built == Err(NoDigest))
            && (o.host.Some? && date.Some? && digest.Some? ==>
                  var signed := sign(SignedString(o.verb, OutgoingTarget(o), o.host.value, date.value, digest.value));
                  built == if signed.Some? then Ok(Print(keyId, signed.value)) else Err(SigningFailed))
  {}
}
