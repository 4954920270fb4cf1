/**
 * The API's access logger (AccessLogger): it reads a Camel exchange and renders one access line
 *   [ACCESS] [tag] method uri from IP=ip | Agent=ua | Referer=ref | Accept-Language=lang
 * The servlet request Camel attaches is preferred over the exchange's own headers, and the client
 * IP is taken from proxy headers first.
 */
module AccessLog {
  import opened Wrappers
  import Text

  /** Header name to value; a missing name reads as null. */
  type Headers = map<string, string>

  /** The parts of an `HttpServletRequest` the logger reads. */
  datatype ServletRequest = ServletRequest(headers: Headers, httpMethod: string, requestUri: string, remoteAddr: string)

  /**
   * A Camel exchange's incoming message: its headers, and the servlet request objects filed under
   * the headers `CamelPlatformHttpServletRequest` and `CamelHttpServletRequest` (absent when the
   * header is missing or holds no servlet request).
   */
  datatype Exchange = Exchange(headers: Headers, platformRequest: Option<ServletRequest>, httpRequest: Option<ServletRequest>)

  const Unknown: string := "unknown"

  /** `getHeader(name, String.class)`. */
  function Header(h: Headers, name: string): (v: Option<string>)
    ensures v.Some? <==> name in h
    ensures v.Some? ==> v.value == h[name]
  {
    if name in h then Some(h[name]) else None
  }

  /** `v != null && !v.isEmpty()`: an empty header counts as missing. */
  predicate Present(v: Option<string>) {
    v.Some? && v.value != ""
  }

  /** What extracting the IP can throw: indexing the empty array `split(",")` returns for a value made only of commas. */
  datatype LogError = ArrayIndexOutOfBounds

  /**
   * The client IP: a non-empty `X-Real-IP`; else the first comma-separated entry of a non-empty
   * `X-Forwarded-For`, trimmed; else the remote address of the servlet request (the platform-http
   * one first); else the `CamelHttpRemoteAddress` header, or `unknown`.
   */
  function ExtractIp(e: Exchange): (r: Result<string, LogError>)
    ensures r.Err? <==> !Present(Header(e.headers, "X-Real-IP")) && Present(Header(e.headers, "X-Forwarded-For"))
                         && forall i :: 0 <= i < |e.headers["X-Forwarded-For"]| ==> e.headers["X-Forwarded-For"][i] == ','
  {
    var realIp := Header(e.headers, "X-Real-IP");
    if Present(realIp) then Ok(realIp.value)
    else
      var forwarded := Header(e.headers, "X-Forwarded-For");
      if Present(forwarded) then
        match Text.FirstSplitField(forwarded.value, ',')
        case None => Err(ArrayIndexOutOfBounds)
        case Some(first) => Ok(Text.Trim(first))
      else
        var request := if e.platformRequest.Some? then e.platformRequest else e.httpRequest;
        if request.Some? then Ok(request.value.remoteAddr)
        else Ok(Header(e.headers, "CamelHttpRemoteAddress").GetOr(Unknown))
  }

  /**
   * A header read through the platform-http servlet request when one is attached (with no
   * fallback to the exchange's headers), else from the exchange's headers; missing is `unknown`.
   */
  function GetHeader(e: Exchange, name: string): (r: string)
    ensures e.platformRequest.Some? && name in e.platformRequest.value.headers ==> r == e.platformRequest.value.headers[name]
    ensures e.platformRequest.None? && name in e.headers ==> r == e.headers[name]
    ensures e.platformRequest.Some? && name !in e.platformRequest.value.headers ==> r == Unknown
    ensures e.platformRequest.None? && name !in e.headers ==> r == Unknown
  {
    match e.platformRequest
    case Some(request) => Header(request.headers, name).GetOr(Unknown)
    case None => Header(e.headers, name).GetOr(Unknown)
  }

  function ExtractUserAgent(e: Exchange): string {
    GetHeader(e, "User-Agent")
  }

  function ExtractReferer(e: Exchange): string {
    GetHeader(e, "Referer")
  }

  function ExtractAcceptLanguage(e: Exchange): string {
    GetHeader(e, "Accept-Language")
  }

  /** The HTTP method: the platform-http servlet request's, else the `CamelHttpMethod` header; may be missing. */
  function ExtractMethod(e: Exchange): (r: Option<string>)
    ensures e.platformRequest.Some? ==> r == Some(e.platformRequest.value.httpMethod)
    ensures e.platformRequest.None? ==> r == Header(e.headers, "CamelHttpMethod")
  {
    match e.platformRequest
    case Some(request) => Some(request.httpMethod)
    case None => Header(e.headers, "CamelHttpMethod")
  }

  /** The request URI: the platform-http servlet request's, else the `CamelHttpUri` header; may be missing. */
  function ExtractUri(e: Exchange): (r: Option<string>)
    ensures e.platformRequest.Some? ==> r == Some(e.platformRequest.value.requestUri)
    ensures e.platformRequest.None? ==> r == Header(e.headers, "CamelHttpUri")
  {
    match e.platformRequest
    case Some(request) => Some(request.requestUri)
    case None => Header(e.headers, "CamelHttpUri")
  }

  /** The fields of one access line. */
  datatype AccessDescriptor = AccessDescriptor(
    httpMethod: Option<string>, uri: Option<string>, ip: string,
    userAgent: string, referer: string, acceptLanguage: string)

  /** `%s` of a possibly null string. */
  function Shown(v: Option<string>): string {
    v.GetOr("null")
  }

  /** `String.format("[ACCESS] [%s] %s %s from IP=%s | Agent=%s | Referer=%s | Accept-Language=%s", ...)`. */
  function AccessLine(tag: string, d: AccessDescriptor): string {
    "[ACCESS] [" + tag + "] " + Shown(d.httpMethod) + " " + Shown(d.uri) + " from IP=" + d.ip
    + " | Agent=" + d.userAgent + " | Referer=" + d.referer + " | Accept-Language=" + d.acceptLanguage
  }

  /** The access line for an exchange, or the exception extracting its IP throws. */
  function BuildLogMessage(tag: string, e: Exchange): (r: Result<string, LogError>)
    ensures r.Err? <==> ExtractIp(e).Err?
  {
    match ExtractIp(e)
    case Err(err) => Err(err)
    case Ok(ip) =>
      Ok(AccessLine(tag, AccessDescriptor(ExtractMethod(e), ExtractUri(e), ip,
                                          ExtractUserAgent(e), ExtractReferer(e), ExtractAcceptLanguage(e))))
  }

  // Reading an access line back. Each literal between two fields carries a marker character
  // that the field before it does not contain; the marker is the first occurrence of its
  // character within the literal.

  datatype Separator = Separator(text: string, marker: nat)

  predicate WellMarked(sep: Separator) {
    sep.marker < |sep.text| && forall i :: 0 <= i < sep.marker ==> sep.text[i] != sep.text[sep.marker]
  }

  /** The marker character of a separator; the space for a marker past the end only keeps the function total. */
  function MarkerChar(sep: Separator): char {
    if sep.marker < |sep.text| then sep.text[sep.marker] else ' '
  }

  /** `fields[0] + seps[0].text + fields[1] + ... + seps[n-1].text + fields[n]`. */
  function Interleave(fields: seq<string>, seps: seq<Separator>): string
    requires |fields| == |seps| + 1
  {
    if seps == [] then fields[0] else fields[0] + seps[0].text + Interleave(fields[1..], seps[1..])
  }

  /** Splits `s` at each separator in turn, the field before a separator ending at its marker. */
  function Separate(s: string, seps: seq<Separator>): (r: Option<seq<string>>)
    ensures r.Some? ==> |r.value| == |seps| + 1
  {
    if seps == [] then Some([s])
    else
      var sep := seps[0];
      var k := |Text.UpTo(s, MarkerChar(sep))|;
      if k < sep.marker || !(sep.text <= s[k - sep.marker..]) then None
      else
        match Separate(s[k - sep.marker + |sep.text|..], seps[1..])
        case None => None
        case Some(rest) => Some([s[..k - sep.marker]] + rest)
  }

  lemma {:induction false} UpToPastFreePrefix(a: string, b: string, c: char)
    requires c !in a
    ensures Text.UpTo(a + b, c) == a + Text.UpTo(b, c)
  {
    if a != [] {
      assert a[0] in a && (a + b)[0] == a[0];
      assert (a + b)[1..] == a[1..] + b;
      assert forall x :: x in a[1..] ==> x in a;
      UpToPastFreePrefix(a[1..], b, c);
      assert Text.UpTo(a + b, c) == [a[0]] + Text.UpTo((a + b)[1..], c);
      assert [a[0]] + (a[1..] + Text.UpTo(b, c)) == a + Text.UpTo(b, c);
    } else {
      assert a + b == b;
    }
  }

  /** In `f + sep.text + rest`, the first marker is the separator's own when `f` does not contain it. */
  lemma FirstMarkerIsSeparators(f: string, sep: Separator, rest: string)
    requires WellMarked(sep) && MarkerChar(sep) !in f
    ensures |Text.UpTo(f + sep.text + rest, MarkerChar(sep))| == |f| + sep.marker
  {
    var m, c := sep.marker, MarkerChar(sep);
    assert f + sep.text + rest == (f + sep.text[..m]) + (sep.text[m..] + rest);
    assert c !in sep.text[..m];
    UpToPastFreePrefix(f + sep.text[..m], sep.text[m..] + rest, c);
  }

  /** Where `Separate` cuts `f + sep.text + rest`: after `f`, and again after the separator. */
  lemma CutAfterField(f: string, sep: Separator, rest: string)
    requires WellMarked(sep) && MarkerChar(sep) !in f
    ensures var s, k := f + sep.text + rest, |Text.UpTo(f + sep.text + rest, MarkerChar(sep))|;
            k - sep.marker == |f| && sep.text <= s[|f|..] && s[|f| + |sep.text|..] == rest && s[..|f|] == f
  {
    var s := f + sep.text + rest;
    FirstMarkerIsSeparators(f, sep, rest);
    assert s[|f|..] == sep.text + rest;
    assert s[|f| + |sep.text|..] == rest;
  }

  /** One step of `Separate`: a field free of the separator's marker is split off whole. */
  lemma SeparateStep(f: string, sep: Separator, rest: string, seps: seq<Separator>)
    requires WellMarked(sep) && MarkerChar(sep) !in f
    ensures Separate(f + sep.text + rest, [sep] + seps)
            == match Separate(rest, seps) case None => None case Some(fs) => Some([f] + fs)
  {
    var all := [sep] + seps;
    assert all[0] == sep && all[1..] == seps;
    CutAfterField(f, sep, rest);
  }

  /** The field before a separator is recovered when it does not contain the separator's marker. */
  lemma {:induction false} SeparateInterleave(fields: seq<string>, seps: seq<Separator>)
    requires |fields| == |seps| + 1
    requires forall i :: 0 <= i < |seps| ==> WellMarked(seps[i])
    requires forall i :: 0 <= i < |seps| ==> MarkerChar(seps[i]) !in fields[i]
    ensures Separate(Interleave(fields, seps), seps) == Some(fields)
  {
    if seps == [] {
      assert fields == [fields[0]];
    } else {
      SeparateInterleave(fields[1..], seps[1..]);
      SeparateStep(fields[0], seps[0], Interleave(fields[1..], seps[1..]), seps[1..]);
      assert [seps[0]] + seps[1..] == seps;
      assert [fields[0]] + fields[1..] == fields;
    }
  }

  const LinePrefix: string := "[ACCESS] ["

  /** The literals after the tag, method, URI, IP, user agent and referer. */
  const AccessSeparators: seq<Separator> := [
    Separator("] ", 0), Separator(" ", 0), Separator(" from IP=", 0),
    Separator(" | Agent=", 1), Separator(" | Referer=", 1), Separator(" | Accept-Language=", 1)]

  /** Reads an access line back into its seven fields (tag, method, URI, IP, agent, referer, language). */
  function ParseAccessLine(line: string): Option<seq<string>> {
    if LinePrefix <= line then Separate(line[|LinePrefix|..], AccessSeparators) else None
  }

  /** Regrouping a right-nested concatenation, stated once so the round-trip proof stays small. */
  lemma Regroup(a: string, b: string, c: string, d: string)
    ensures a + (b + c + d) == a + b + c + d
  {
  }

  /**
   * The access line can be read back into exactly the fields it was built from, provided the
   * tag has no `]`, the method and URI no space, and the IP, agent and referer no `|`.
   */
  lemma AccessLineRoundTrip(tag: string, d: AccessDescriptor)
    requires ']' !in tag && ' ' !in Shown(d.httpMethod) && ' ' !in Shown(d.uri)
    requires '|' !in d.ip && '|' !in d.userAgent && '|' !in d.referer
    ensures ParseAccessLine(AccessLine(tag, d))
            == Some([tag, Shown(d.httpMethod), Shown(d.uri), d.ip, d.userAgent, d.referer, d.acceptLanguage])
  {
    var fields := [tag, Shown(d.httpMethod), Shown(d.uri), d.ip, d.userAgent, d.referer, d.acceptLanguage];
    var seps := AccessSeparators;
    assert forall i :: 0 <= i < |seps| ==> WellMarked(seps[i]);
    assert forall i :: 0 <= i < |seps| ==> MarkerChar(seps[i]) !in fields[i];
    var line := AccessLine(tag, d);
    var t6 := d.acceptLanguage;
    var t5 := d.referer + " | Accept-Language=" + t6;
    var t4 := d.userAgent + " | Referer=" + t5;
    var t3 := d.ip + " | Agent=" + t4;
    var t2 := Shown(d.uri) + " from IP=" + t3;
    var t1 := Shown(d.httpMethod) + " " + t2;
    var t0 := tag + "] " + t1;
    var l0 := LinePrefix + tag + "] ";
    var l1 := l0 + Shown(d.httpMethod) + " ";
    var l2 := l1 + Shown(d.uri) + " from IP=";
    var l3 := l2 + d.ip + " | Agent=";
    var l4 := l3 + d.userAgent + " | Referer=";
    assert line == l4 + d.referer + " | Accept-Language=" + t6;
    Regroup(l4, d.referer, " | Accept-Language=", t6);
    Regroup(l3, d.userAgent, " | Referer=", t5);
    Regroup(l2, d.ip, " | Agent=", t4);
    Regroup(l1, Shown(d.uri), " from IP=", t3);
    Regroup(l0, Shown(d.httpMethod), " ", t2);
    Regroup(LinePrefix, tag, "] ", t1);
    assert line == LinePrefix + t0;
    assert Interleave(fields[6..], seps[6..]) == t6;
    assert Interleave(fields[5..], seps[5..]) == t5;
    assert Interleave(fields[4..], seps[4..]) == t4;
    assert Interleave(fields[3..], seps[3..]) == t3;
    assert Interleave(fields[2..], seps[2..]) == t2;
    assert Interleave(fields[1..], seps[1..]) == t1;
    assert Interleave(fields, seps) == t0;
    SeparateInterleave(fields, seps);
    assert line[|LinePrefix|..] == Interleave(fields, seps);
  }

  /** The message built for an exchange reads back into the fields extracted from it. */
  lemma BuildLogMessageReadsBack(tag: string, e: Exchange)
    requires ExtractIp(e).Ok?
    requires ']' !in tag && ' ' !in Shown(ExtractMethod(e)) && ' ' !in Shown(ExtractUri(e))
    requires '|' !in ExtractIp(e).value && '|' !in ExtractUserAgent(e) && '|' !in ExtractReferer(e)
    ensures BuildLogMessage(tag, e).Ok?
    ensures ParseAccessLine(BuildLogMessage(tag, e).value)
            == Some([tag, Shown(ExtractMethod(e)), Shown(ExtractUri(e)), ExtractIp(e).value,
                     ExtractUserAgent(e), ExtractReferer(e), ExtractAcceptLanguage(e)])
  {
    AccessLineRoundTrip(tag, AccessDescriptor(ExtractMethod(e), ExtractUri(e), ExtractIp(e).value,
                                              ExtractUserAgent(e), ExtractReferer(e), ExtractAcceptLanguage(e)));
  }

  /** A non-empty `X-Real-IP` is returned as it is, whatever else the exchange carries. */
  lemma RealIpTakesPrecedence(e: Exchange)
    requires Present(Header(e.headers, "X-Real-IP"))
    ensures ExtractIp(e) == Ok(e.headers["X-Real-IP"])
  {
  }

  /**
   * Without a usable `X-Real-IP`, a non-empty `X-Forwarded-For` that is not all commas yields its
   * text before the first comma, trimmed.
   */
  lemma ForwardedForFirstEntry(e: Exchange)
    requires !Present(Header(e.headers, "X-Real-IP")) && Present(Header(e.headers, "X-Forwarded-For"))
    requires exists i :: 0 <= i < |e.headers["X-Forwarded-For"]| && e.headers["X-Forwarded-For"][i] != ','
    ensures ExtractIp(e) == Ok(Text.Trim(Text.UpTo(e.headers["X-Forwarded-For"], ',')))
  {
    var s := e.headers["X-Forwarded-For"];
    assert Text.FirstSplitField(s, ',') == Some(Text.UpTo(s, ','));
  }

  /** Without usable proxy headers, an attached servlet request's remote address is used, the platform-http one first. */
  lemma ServletRemoteAddressNext(e: Exchange)
    requires !Present(Header(e.headers, "X-Real-IP")) && !Present(Header(e.headers, "X-Forwarded-For"))
    requires e.platformRequest.Some? || e.httpRequest.Some?
    ensures ExtractIp(e) == Ok(if e.platformRequest.Some? then e.platformRequest.value.remoteAddr
                               else e.httpRequest.value.remoteAddr)
  {
  }

  /** With neither proxy headers nor a servlet request, the `CamelHttpRemoteAddress` header is used, else `unknown`. */
  lemma RemoteAddressHeaderLast(e: Exchange)
    requires !Present(Header(e.headers, "X-Real-IP")) && !Present(Header(e.headers, "X-Forwarded-For"))
    requires e.platformRequest.None? && e.httpRequest.None?
    ensures ExtractIp(e) == Ok(if "CamelHttpRemoteAddress" in e.headers then e.headers["CamelHttpRemoteAddress"] else Unknown)
  {
  }

  /** An empty `X-Real-IP` or `X-Forwarded-For` header is treated exactly like a missing one. */
  lemma EmptyProxyHeaderIsMissing(e: Exchange, name: string)
    requires name == "X-Real-IP" || name == "X-Forwarded-For"
    ensures ExtractIp(e.(headers := e.headers[name := ""])) == ExtractIp(e.(headers := e.headers - {name}))
  {
    var withEmpty, without := e.headers[name := ""], e.headers - {name};
    forall other | other != name
      ensures Header(withEmpty, other) == Header(without, other)
    {
    }
    assert !Present(Header(withEmpty, name)) && !Present(Header(without, name));
  }

  /** `X-Forwarded-For: 2.2.2.2, 3.3.3.3` alone gives `2.2.2.2`. */
  lemma ForwardedForExample()
    ensures ExtractIp(Exchange(map["X-Forwarded-For" := "2.2.2.2, 3.3.3.3"], None, None)) == Ok("2.2.2.2")
  {
    var e := Exchange(map["X-Forwarded-For" := "2.2.2.2, 3.3.3.3"], None, None);
    var first, rest := "2.2.2.2", ", 3.3.3.3";
    assert e.headers["X-Forwarded-For"] == first + rest;
    assert e.headers["X-Forwarded-For"][0] != ',';
    assert "X-Real-IP" !in e.headers;
    ForwardedForFirstEntry(e);
    assert ',' !in first;
    UpToPastFreePrefix(first, rest, ',');
    assert Text.UpTo(rest, ',') == [];
    Text.TrimKeepsBoundedText(first);
  }

  /** `X-Forwarded-For: ,,` makes the IP lookup (and so the whole access line) throw. */
  lemma CommasOnlyForwardedForThrows()
    ensures ExtractIp(Exchange(map["X-Forwarded-For" := ",,"], None, None)) == Err(ArrayIndexOutOfBounds)
  {
    var e := Exchange(map["X-Forwarded-For" := ",,"], None, None);
    assert "X-Real-IP" !in e.headers;
    assert Header(e.headers, "X-Forwarded-For") == Some(",,");
    assert forall i :: 0 <= i < |",,"| ==> ",,"[i] == ',';
  }
}
