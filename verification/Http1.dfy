/** A reference reader of HTTP/1.1 requests, written from RFC 9112: field lines (section 5), message
    body length (section 6.3) and chunked coding (section 7.1). The edge does not contain it; it
    stands for the service at the far end of a tunnel stream. */
module Http1 {
  import opened Bytes
  import opened Options

  type Field = (Bytes, Bytes)

  datatype Message = Message(verb: Bytes, target: Bytes, fields: seq<Field>, body: Bytes, trailers: seq<Field>)

  // ---- Characters ----

  predicate IsDigit(c: char) { '0' <= c <= '9' }
  predicate IsAlpha(c: char) { 'a' <= c <= 'z' || 'A' <= c <= 'Z' }
  predicate IsTokenChar(c: char) {
    || IsDigit(c) || IsAlpha(c)
    || c == '!' || c == '#' || c == '$' || c == '%' || c == '&' || c == '\'' || c == '*' || c == '+'
    || c == '-' || c == '.' || c == '^' || c == '_' || c == '`' || c == '|' || c == '~'
  }
  predicate IsToken(s: Bytes) { s != [] && forall k :: 0 <= k < |s| ==> IsTokenChar(s[k]) }
  predicate IsOWS(c: char) { c == ' ' || c == '\t' }

  function TrimOWSLeft(s: Bytes): Bytes { if s != [] && IsOWS(s[0]) then TrimOWSLeft(s[1..]) else s }
  function TrimOWSRight(s: Bytes): Bytes { if s != [] && IsOWS(s[|s| - 1]) then TrimOWSRight(s[..|s| - 1]) else s }
  /** `s` without the optional whitespace around it. */
  function TrimOWS(s: Bytes): Bytes { TrimOWSRight(TrimOWSLeft(s)) }

  // ---- Numbers ----

  function Digit(d: nat): char
    requires d < 16
  {
    if d < 10 then ('0' as int + d) as char else ('a' as int + (d - 10)) as char
  }

  function DigitValue(c: char): int {
    if '0' <= c <= '9' then c as int - '0' as int
    else if 'a' <= c <= 'f' then c as int - 'a' as int + 10
    else if 'A' <= c <= 'F' then c as int - 'A' as int + 10
    else -1
  }

  function Radix(hex: bool): nat { if hex then 16 else 10 }

  /** `n` with its last digit split off. */
  function Split(n: nat, hex: bool): (r: (nat, nat))
    ensures r.1 < Radix(hex) && (n >= Radix(hex) ==> r.0 < n)
    ensures if hex then n == r.0 * 16 + r.1 else n == r.0 * 10 + r.1
  {
    if hex then (n / 16, n % 16) else (n / 10, n % 10)
  }

  function Digits(n: nat, hex: bool): (s: Bytes)
    ensures s != [] && forall k :: 0 <= k < |s| ==> IsDigit(s[k]) || IsAlpha(s[k])
    decreases n
  {
    var (q, d) := Split(n, hex);
    if n < Radix(hex) then [Digit(d)] else Digits(q, hex) + [Digit(d)]
  }

  function Number(s: Bytes, hex: bool): Option<nat> {
    if s == [] then None
    else
      var v := DigitValue(s[|s| - 1]);
      if v < 0 || v >= Radix(hex) then None
      else if |s| == 1 then Some(v)
      else
        match Number(s[..|s| - 1], hex)
        case None => None
        case Some(n) => Some((if hex then n * 16 else n * 10) + v)
  }

  lemma {:induction false} NumberOfDigits(n: nat, hex: bool)
    ensures Number(Digits(n, hex), hex) == Some(n)
    decreases n
  {
    var (q, d) := Split(n, hex);
    assert DigitValue(Digit(d)) == d;
    if n >= Radix(hex) {
      NumberOfDigits(q, hex);
      var s := Digits(n, hex);
      assert s[..|s| - 1] == Digits(q, hex);
    }
  }

  // ---- Lines and fields ----

  function CutLine(s: Bytes): (r: Option<(Bytes, Bytes)>)
    ensures r.Some? ==> |r.value.1| < |s|
  {
    var i := IndexCRLF(s); if i < 0 then None else Some((s[..i], s[i + 2..]))
  }

  function IndexColon(l: Bytes): (r: nat)
    ensures r <= |l| && ':' !in l[..r] && (r < |l| ==> l[r] == ':')
  {
    if l == [] || l[0] == ':' then 0 else 1 + IndexColon(l[1..])
  }

  function ParseField(l: Bytes): Option<Field> {
    var i := IndexColon(l);
    if i == |l| || !IsToken(l[..i]) then None else Some((l[..i], TrimOWS(l[i + 1..])))
  }

  /** Field lines up to and including the empty line. */
  function ParseFields(s: Bytes): (r: Option<(seq<Field>, Bytes)>)
    ensures r.Some? ==> |r.value.1| < |s|
    decreases |s|
  {
    match CutLine(s)
    case None => None
    case Some((l, rest)) =>
      if l == [] then Some(([], rest))
      else
        match (ParseField(l), ParseFields(rest))
        case (Some(f), Some((fs, end))) => Some(([f] + fs, end))
        case _ => None
  }

  predicate Named(f: Field, name: Bytes) { EqualFold(f.0, name) }

  function Valued(fs: seq<Field>, name: Bytes): seq<Bytes> {
    if fs == [] then []
    else (if Named(fs[0], name) then [fs[0].1] else []) + Valued(fs[1..], name)
  }

  // ---- Body ----

  /** Chunks, the last chunk and the trailer section. */
  function DecodeChunks(s: Bytes): (r: Option<(Bytes, seq<Field>, Bytes)>)
    ensures r.Some? ==> |r.value.2| < |s|
    decreases |s|
  {
    match CutLine(s)
    case None => None
    case Some((l, rest)) =>
      match Number(l, true)
      case None => None
      case Some(n) =>
        if n == 0 then
          match ParseFields(rest) { case None => None case Some((ts, end)) => Some(([], ts, end)) }
        else if |rest| < n + 2 || rest[n..n + 2] != CRLF then None
        else
          match DecodeChunks(rest[n + 2..])
          case None => None
          case Some((body, ts, end)) => Some((rest[..n] + body, ts, end))
  }

  /** The body by the fields of the request: chunked, of a given length, or none. A request with both framings, or with
      either given twice, is refused. */
  function DecodeBody(fs: seq<Field>, s: Bytes): (r: Option<(Bytes, seq<Field>, Bytes)>)
    ensures r.Some? ==> |r.value.2| <= |s|
  {
    var te, cl := Valued(fs, "Transfer-Encoding"), Valued(fs, "Content-Length");
    if te == ["chunked"] && cl == [] then DecodeChunks(s)
    else if te == [] && |cl| == 1 then
      match Number(cl[0], false)
      case None => None
      case Some(n) => if |s| < n then None else Some((s[..n], [], s[n..]))
    else if te == [] && cl == [] then Some(([], [], s))
    else None
  }

  function IndexSpace(l: Bytes): (r: nat)
    ensures r <= |l| && ' ' !in l[..r] && (r < |l| ==> l[r] == ' ')
  {
    if l == [] || l[0] == ' ' then 0 else 1 + IndexSpace(l[1..])
  }

  function ParseRequestLine(l: Bytes): Option<(Bytes, Bytes)> {
    var i := IndexSpace(l);
    if i == |l| then None
    else
      var j := IndexSpace(l[i + 1..]);
      if l[i + 1 + j..] != " HTTP/1.1" then None else Some((l[..i], l[i + 1..][..j]))
  }

  /** One request, and what follows it on the connection. */
  function Decode(s: Bytes): (r: Option<(Message, Bytes)>)
    ensures r.Some? ==> |r.value.1| < |s|
  {
    match CutLine(s)
    case None => None
    case Some((l, rest)) =>
      match (ParseRequestLine(l), ParseFields(rest))
      case (Some((m, t)), Some((fs, after))) =>
        (match DecodeBody(fs, after)
         case None => None
         case Some((body, ts, end)) => Some((Message(m, t, fs, body, ts), end)))
      case _ => None
  }

  /** All requests of a connection, in order. */
  function DecodeAll(s: Bytes): Option<seq<Message>>
    decreases |s|
  {
    if s == [] then Some([])
    else
      match Decode(s)
      case None => None
      case Some((m, rest)) =>
        match DecodeAll(rest) { case None => None case Some(ms) => Some([m] + ms) }
  }
}
