/** The wire protocol's messages, their printer and their parsers. */
module Protocol {
  import opened Wrappers

  type ClientId = nat
  type Name = string

  const MAX_LOCK_NAME := 64

  /** Ids and counts are 64-bit unsigned numbers. */
  const U64_MAX: nat := 0xFFFF_FFFF_FFFF_FFFF

  datatype Request =
    | Acquire(name: Name)
    | TryAcquire(name: Name)
    | Release(name: Name)
    | Status(name: Name)
    | List

  datatype Response =
    | Ok
    | Granted(name: Name)
    | Denied(name: Name)
    | StatusFree(name: Name, waiters: nat)
    | StatusHeld(name: Name, holder: ClientId, waiters: nat)
    | ListBegin
    | ListEntry(name: Name)
    | ListEnd
    | Err(message: string)

  /** The two refusals of the error catalogue that depend on the lock table. */
  const ALREADY_HELD := Err("already held")
  const NOT_HELD := Err("not held")

  predicate NameChar(c: char) {
    'a' <= c <= 'z' || 'A' <= c <= 'Z' || '0' <= c <= '9' || c == '_' || c == '.' || c == ':' || c == '-'
  }

  predicate ValidName(name: Name) {
    0 < |name| <= MAX_LOCK_NAME && forall i :: 0 <= i < |name| ==> NameChar(name[i])
  }

  function Join(head: string, rest: string): string {
    head + " " + rest
  }

  lemma JoinMore(head: string, rest: string, tail: string)
    ensures Join(head, rest) + tail == Join(head, rest + tail)
  {
    assert Join(head, rest) + tail == head + " " + (rest + tail);
  }

  /** The text before the first space, and the text after it if there is one. */
  function SplitFirst(s: string): (string, Option<string>) {
    if s == "" then ("", None)
    else if s[0] == ' ' then ("", Some(s[1..]))
    else
      var (head, tail) := SplitFirst(s[1..]);
      ([s[0]] + head, tail)
  }

  // ---------------------------------------------------------------------------
  // Decimal numbers
  // ---------------------------------------------------------------------------

  function DigitChar(d: nat): char
    requires d < 10
  {
    '0' + d as char
  }

  predicate IsDigit(c: char) {
    '0' <= c <= '9'
  }

  predicate AllDigits(s: string) {
    forall i :: 0 <= i < |s| ==> IsDigit(s[i])
  }

  function PrintNat(n: nat): string {
    if n < 10 then [DigitChar(n)] else PrintNat(n / 10) + [DigitChar(n % 10)]
  }

  /** The value of a digit string, or nothing if it exceeds the 64-bit range. */
  function DigitsValue(s: string): (r: Option<nat>)
    requires AllDigits(s)
    ensures r.Some? ==> r.value <= U64_MAX
  {
    if s == "" then Some(0)
    else
      match DigitsValue(s[..|s| - 1])
      case None => None
      case Some(v) =>
        assert IsDigit(s[|s| - 1]);
        var v' := 10 * v + (s[|s| - 1] as int - '0' as int);
        if v' <= U64_MAX then Some(v') else None
  }

  /** Unsigned numbers may carry a plus sign and leading zeros, but must have a digit. */
  function ParseNat(s: string): (r: Option<nat>)
    ensures r.Some? ==> r.value <= U64_MAX
  {
    var digits := if |s| > 1 && s[0] == '+' then s[1..] else s;
    if digits != "" && AllDigits(digits) then DigitsValue(digits) else None
  }

  lemma {:induction false} DecimalRoundTrip(n: nat)
    ensures AllDigits(PrintNat(n))
    ensures PrintNat(n) != "" && DigitsValue(PrintNat(n)) == if n <= U64_MAX then Some(n) else None
  {
    if n >= 10 {
      DecimalRoundTrip(n / 10);
      assert PrintNat(n)[..|PrintNat(n)| - 1] == PrintNat(n / 10);
    } else {
      assert PrintNat(n)[..0] == "";
      assert n == 10 * 0 + (DigitChar(n) as int - '0' as int);
    }
  }

  lemma ParsePrintNat(n: nat)
    ensures ParseNat(PrintNat(n)) == if n <= U64_MAX then Some(n) else None
    ensures ' ' !in PrintNat(n)
  {
    DecimalRoundTrip(n);
    assert IsDigit(PrintNat(n)[0]);
  }

  // ---------------------------------------------------------------------------
  // Requests: strict
  // ---------------------------------------------------------------------------

  function StrictName(rest: Option<string>): Option<Name> {
    match rest
    case None => None
    case Some(name) => if ' ' in name || !ValidName(name) then None else Some(name)
  }

  function ParseRequest(s: string): Option<Request> {
    var (verb, rest) := SplitFirst(s);
    var name := StrictName(rest);
    if verb == "ACQUIRE" then (if name.Some? then Some(Acquire(name.value)) else None)
    else if verb == "TRY_ACQUIRE" then (if name.Some? then Some(TryAcquire(name.value)) else None)
    else if verb == "RELEASE" then (if name.Some? then Some(Release(name.value)) else None)
    else if verb == "STATUS" then (if name.Some? then Some(Status(name.value)) else None)
    else if verb == "LIST" && rest.None? then Some(List)
    else None
  }

  function PrintRequest(r: Request): string {
    match r
    case Acquire(n) => Join("ACQUIRE", n)
    case TryAcquire(n) => Join("TRY_ACQUIRE", n)
    case Release(n) => Join("RELEASE", n)
    case Status(n) => Join("STATUS", n)
    case List => "LIST"
  }

  lemma {:induction false} SplitAtSpace(head: string, tail: string)
    requires ' ' !in head
    ensures SplitFirst(Join(head, tail)) == (head, Some(tail))
    ensures SplitFirst(head) == (head, None)
  {
    if head == "" {
      assert Join(head, tail)[1..] == tail;
    } else {
      SplitAtSpace(head[1..], tail);
      assert Join(head, tail)[1..] == Join(head[1..], tail);
      assert [head[0]] + head[1..] == head;
    }
  }

  /** Splitting loses nothing. */
  lemma {:induction false} SplitJoins(s: string)
    ensures var (head, tail) := SplitFirst(s);
      ' ' !in head && s == if tail.None? then head else Join(head, tail.value)
  {
    if s != "" && s[0] != ' ' {
      SplitJoins(s[1..]);
      assert s == [s[0]] + s[1..];
    } else if s != "" {
      assert s == " " + s[1..];
    }
  }

  lemma NameHasNoSpace(name: Name)
    requires ValidName(name)
    ensures ' ' !in name
  {
    assert forall i :: 0 <= i < |name| ==> NameChar(name[i]);
  }

  /** A request re-parses to itself exactly when its lock name is valid. */
  lemma RequestPrintParse(r: Request)
    ensures ParseRequest(PrintRequest(r)) == Some(r) <==> r.List? || ValidName(r.name)
  {
    match r
    case List => SplitAtSpace("LIST", "");
    case Acquire(n) => RequestLine("ACQUIRE", n);
    case TryAcquire(n) => RequestLine("TRY_ACQUIRE", n);
    case Release(n) => RequestLine("RELEASE", n);
    case Status(n) => RequestLine("STATUS", n);
  }

  lemma RequestLine(verb: string, name: Name)
    requires ' ' !in verb
    ensures SplitFirst(Join(verb, name)) == (verb, Some(name))
    ensures StrictName(Some(name)) == if ValidName(name) then Some(name) else None
  {
    SplitAtSpace(verb, name);
    if ValidName(name) {
      NameHasNoSpace(name);
    }
  }

  /** Every accepted request line is the printed form of the request it stands for. */
  lemma RequestParsePrint(s: string)
    ensures ParseRequest(s).Some? ==> PrintRequest(ParseRequest(s).value) == s
  {
    SplitJoins(s);
  }

  // ---------------------------------------------------------------------------
  // Responses: lenient
  // ---------------------------------------------------------------------------

  function LenientName(rest: Option<string>): Option<Name> {
    match rest
    case None => None
    case Some(text) =>
      var (name, ignored) := SplitFirst(text);
      if ValidName(name) then Some(name) else None
  }

  function ParseStatus(text: string): Option<Response> {
    var (name, rest) := SplitFirst(text);
    if !ValidName(name) || rest.None? then None
    else
      var (kind, rest') := SplitFirst(rest.value);
      if rest'.None? then None
      else if kind == "FREE" then
        var (waiters, tail) := SplitFirst(rest'.value);
        match ParseNat(waiters) {
          case Some(w) => Some(StatusFree(name, w))
          case None => None
        }
      else if kind == "HELD" then
        var (holder, rest'') := SplitFirst(rest'.value);
        if rest''.None? then None
        else
          var (waiters, tail) := SplitFirst(rest''.value);
          match (ParseNat(holder), ParseNat(waiters)) {
            case (Some(h), Some(w)) => Some(StatusHeld(name, h, w))
            case _ => None
          }
      else None
  }

  function ParseResponse(s: string): Option<Response> {
    var (verb, rest) := SplitFirst(s);
    if verb == "OK" then Some(Ok)
    else if verb == "LIST" then Some(ListBegin)
    else if verb == "END" then Some(ListEnd)
    else if verb == "ERR" then Some(Err(if rest.Some? then rest.value else ""))
    else if verb == "GRANTED" then (var n := LenientName(rest); if n.Some? then Some(Granted(n.value)) else None)
    else if verb == "DENIED" then (var n := LenientName(rest); if n.Some? then Some(Denied(n.value)) else None)
    else if verb == "STATUS" then (if rest.Some? then ParseStatus(rest.value) else None)
    else if rest.None? && ValidName(verb) then Some(ListEntry(verb))
    else None
  }

  function PrintResponse(r: Response): string {
    match r
    case Ok => "OK"
    case Granted(n) => Join("GRANTED", n)
    case Denied(n) => Join("DENIED", n)
    case StatusFree(n, w) => Join("STATUS", Join(n, Join("FREE", PrintNat(w))))
    case StatusHeld(n, h, w) => Join("STATUS", Join(n, Join("HELD", Join(PrintNat(h), PrintNat(w)))))
    case ListBegin => "LIST"
    case ListEntry(n) => n
    case ListEnd => "END"
    case Err(m) => if m == "" then "ERR" else Join("ERR", m)
  }

  /** The first words of the other responses: a lock of that name cannot be listed. */
  predicate Keyword(s: string) {
    s == "OK" || s == "LIST" || s == "END" || s == "ERR" || s == "GRANTED" || s == "DENIED" || s == "STATUS"
  }

  /** The responses that survive the wire. */
  predicate Representable(r: Response) {
    match r
    case Granted(n) => ValidName(n)
    case Denied(n) => ValidName(n)
    case StatusFree(n, w) => ValidName(n) && w <= U64_MAX
    case StatusHeld(n, h, w) => ValidName(n) && h <= U64_MAX && w <= U64_MAX
    case ListEntry(n) => ValidName(n) && !Keyword(n)
    case _ => true
  }

  /** Whatever parses is representable. */
  lemma ParsedIsRepresentable(s: string)
    ensures ParseResponse(s).Some? ==> Representable(ParseResponse(s).value)
  {}

  /** Optional further arguments: nothing, or a space and anything. */
  predicate Trailing(tail: string) {
    tail == "" || tail[0] == ' '
  }

  lemma WordLine(word: string, tail: string)
    requires ' ' !in word && Trailing(tail)
    ensures SplitFirst(word + tail) == (word, if tail == "" then None else Some(tail[1..]))
  {
    if tail == "" {
      assert word + tail == word;
      SplitAtSpace(word, "");
    } else {
      assert word + tail == Join(word, tail[1..]);
      SplitAtSpace(word, tail[1..]);
    }
  }

  lemma NameLine(verb: string, n: Name, tail: string)
    requires ' ' !in verb && ValidName(n) && Trailing(tail)
    ensures SplitFirst(Join(verb, n) + tail) == (verb, Some(n + tail)) && LenientName(Some(n + tail)) == Some(n)
  {
    JoinMore(verb, n, tail);
    SplitAtSpace(verb, n + tail);
    NameHasNoSpace(n);
    WordLine(n, tail);
  }

  lemma FreeLine(n: Name, w: nat, tail: string)
    requires ValidName(n) && w <= U64_MAX && Trailing(tail)
    ensures ParseStatus(Join(n, Join("FREE", PrintNat(w) + tail))) == Some(StatusFree(n, w))
  {
    NameHasNoSpace(n);
    SplitAtSpace(n, Join("FREE", PrintNat(w) + tail));
    SplitAtSpace("FREE", PrintNat(w) + tail);
    ParsePrintNat(w);
    WordLine(PrintNat(w), tail);
  }

  lemma HeldNumbers(h: nat, w: nat, tail: string)
    requires h <= U64_MAX && w <= U64_MAX && Trailing(tail)
    ensures SplitFirst(Join(PrintNat(h), PrintNat(w) + tail)) == (PrintNat(h), Some(PrintNat(w) + tail))
    ensures SplitFirst(PrintNat(w) + tail).0 == PrintNat(w)
    ensures ParseNat(PrintNat(h)) == Some(h) && ParseNat(PrintNat(w)) == Some(w)
  {
    ParsePrintNat(h);
    ParsePrintNat(w);
    SplitAtSpace(PrintNat(h), PrintNat(w) + tail);
    WordLine(PrintNat(w), tail);
  }

  lemma HeldLine(n: Name, h: nat, w: nat, tail: string)
    requires ValidName(n) && h <= U64_MAX && w <= U64_MAX && Trailing(tail)
    ensures ParseStatus(Join(n, Join("HELD", Join(PrintNat(h), PrintNat(w) + tail)))) == Some(StatusHeld(n, h, w))
  {
    var numbers := Join(PrintNat(h), PrintNat(w) + tail);
    NameHasNoSpace(n);
    SplitAtSpace(n, Join("HELD", numbers));
    SplitAtSpace("HELD", numbers);
    HeldNumbers(h, w, tail);
  }

  lemma StatusLine(r: Response, tail: string)
    requires (r.StatusFree? || r.StatusHeld?) && Representable(r) && Trailing(tail)
    ensures ParseResponse(PrintResponse(r) + tail) == Some(r)
  {
    match r
    case StatusFree(n, w) =>
      var text := Join(n, Join("FREE", PrintNat(w)));
      JoinMore("STATUS", text, tail);
      JoinMore(n, Join("FREE", PrintNat(w)), tail);
      JoinMore("FREE", PrintNat(w), tail);
      SplitAtSpace("STATUS", text + tail);
      FreeLine(n, w, tail);
    case StatusHeld(n, h, w) =>
      var text := Join(n, Join("HELD", Join(PrintNat(h), PrintNat(w))));
      JoinMore("STATUS", text, tail);
      JoinMore(n, Join("HELD", Join(PrintNat(h), PrintNat(w))), tail);
      JoinMore("HELD", Join(PrintNat(h), PrintNat(w)), tail);
      JoinMore(PrintNat(h), PrintNat(w), tail);
      SplitAtSpace("STATUS", text + tail);
      HeldLine(n, h, w, tail);
  }

  /**
   A representable response re-parses to itself, also when a newer server appends further
   arguments to it. An error message runs to the end of the line and a listed name is a whole
   line, so neither has room for arguments.
   */
  lemma ResponseReparses(r: Response, tail: string)
    requires Representable(r) && Trailing(tail) && (r.Err? || r.ListEntry? ==> tail == "")
    ensures ParseResponse(PrintResponse(r) + tail) == Some(r)
  {
    match r
    case StatusFree(_, _) => StatusLine(r, tail);
    case StatusHeld(_, _, _) => StatusLine(r, tail);
    case Granted(n) => NameLine("GRANTED", n, tail);
    case Denied(n) => NameLine("DENIED", n, tail);
    case Ok => WordLine("OK", tail);
    case ListBegin => WordLine("LIST", tail);
    case ListEnd => WordLine("END", tail);
    case ListEntry(n) =>
      NameHasNoSpace(n);
      WordLine(n, tail);
    case Err(m) =>
      assert PrintResponse(r) + tail == PrintResponse(r);
      SplitAtSpace("ERR", m);
  }

  /**
   A response survives the wire exactly when its names are valid, its numbers in range and a listed
   name is no keyword.
   */
  lemma ResponseRoundTrip(r: Response)
    ensures ParseResponse(PrintResponse(r)) == Some(r) <==> Representable(r)
  {
    ParsedIsRepresentable(PrintResponse(r));
    if Representable(r) {
      ResponseReparses(r, "");
      assert PrintResponse(r) + "" == PrintResponse(r);
    }
  }
}
