/** The lines of the protocol, word for word: what is printed for each message, and which lines parse to it. */
module WireFormat {
  import opened Wrappers
  import opened Protocol

  // ---------------------------------------------------------------------------
  // Names and numbers
  // ---------------------------------------------------------------------------

  /** A lock name has one to 64 ASCII letters, digits and marks. */
  lemma NameChars(name: Name)
    ensures ValidName(name) <==> 1 <= |name| <= 64 && forall c :: c in name ==> Allowed(c as int)
  {
    assert forall c :: NameChar(c) <==> Allowed(c as int);
    assert forall i :: 0 <= i < |name| ==> name[i] in name;
  }

  /** By character code: letters, digits, and the underscore, dot, colon and hyphen. */
  predicate Allowed(code: int) {
    97 <= code <= 122 || 65 <= code <= 90 || 48 <= code <= 57 || code in {95, 46, 58, 45}
  }

  /** Numbers are printed in decimal, without leading zeros. */
  lemma Decimals(n: nat, d: nat)
    requires d < 10
    ensures PrintNat(d) == ["0123456789"[d]]
    ensures n > 0 ==> PrintNat(10 * n + d) == PrintNat(n) + ["0123456789"[d]]
  {
    assert "0123456789"[d] == '0' + d as char;
    assert (10 * n + d) / 10 == n && (10 * n + d) % 10 == d;
  }

  /** They are read with or without a plus sign and leading zeros, up to 64 bits, and nothing else is. */
  lemma NumbersRead(s: string, v: nat)
    ensures ParseNat(s) == Some(v)
       <==> v < 0x1_0000_0000_0000_0000
            && exists z: nat :: PaddedTo(s, z, v) || (s != "" && s[0] == '+' && PaddedTo(s[1..], z, v))
  {
    if z: nat :| PaddedTo(s, z, v) {
      ZerosIgnored(v, z);
      assert IsDigit(s[0]) && s[0] != '+';
    } else if z: nat :| s != "" && s[0] == '+' && PaddedTo(s[1..], z, v) {
      ZerosIgnored(v, z);
    } else if ParseNat(s) == Some(v) {
      if |s| > 1 && s[0] == '+' {
        var z := DigitsPadded(s[1..], v);
      } else {
        var z := DigitsPadded(s, v);
      }
    }
  }

  /** The decimal digits of `v` behind `z` zeros. */
  predicate PaddedTo(s: string, z: nat, v: nat) {
    s == Zeros(z) + PrintNat(v)
  }

  lemma {:induction false} DigitsPadded(s: string, v: nat) returns (z: nat)
    requires s != "" && AllDigits(s) && DigitsValue(s) == Some(v)
    ensures PaddedTo(s, z, v)
  {
    var init, d := s[..|s| - 1], s[|s| - 1] as int - '0' as int;
    assert IsDigit(s[|s| - 1]);
    if init == "" {
      z := 0;
    } else {
      var u := DigitsValue(init).value;
      z := DigitsPadded(init, u);
      Decimals(u, d);
      if u == 0 {
        z := z + 1;
        assert Zeros(z) == Zeros(z - 1) + "0";
      }
    }
    assert s == init + [DigitChar(d)];
  }

  function Zeros(k: nat): string {
    seq(k, i => '0')
  }

  lemma {:induction false} ZerosIgnored(n: nat, zeros: nat)
    ensures var s := Zeros(zeros) + PrintNat(n);
      && |s| > 0 && AllDigits(s)
      && DigitsValue(s) == if n < 0x1_0000_0000_0000_0000 then Some(n) else None
    decreases n
  {
    DecimalRoundTrip(n);
    var s := Zeros(zeros) + PrintNat(n);
    var init := s[..|s| - 1];
    if n >= 10 {
      ZerosIgnored(n / 10, zeros);
      assert init == Zeros(zeros) + PrintNat(n / 10);
    } else {
      ZerosAreZero(zeros);
      assert init == Zeros(zeros);
    }
  }

  lemma {:induction false} ZerosAreZero(zeros: nat)
    ensures DigitsValue(Zeros(zeros)) == Some(0)
  {
    if zeros > 0 {
      ZerosAreZero(zeros - 1);
      assert Zeros(zeros)[..zeros - 1] == Zeros(zeros - 1);
    }
  }

  // ---------------------------------------------------------------------------
  // Requests
  // ---------------------------------------------------------------------------

  /** The five request lines, and no others. */
  lemma RequestLines(s: string, n: Name)
    ensures ParseRequest(s) == Some(Acquire(n)) <==> s == "ACQUIRE " + n && ValidName(n)
    ensures ParseRequest(s) == Some(TryAcquire(n)) <==> s == "TRY_ACQUIRE " + n && ValidName(n)
    ensures ParseRequest(s) == Some(Release(n)) <==> s == "RELEASE " + n && ValidName(n)
    ensures ParseRequest(s) == Some(Status(n)) <==> s == "STATUS " + n && ValidName(n)
    ensures ParseRequest(s) == Some(List) <==> s == "LIST"
  {
    RequestTexts(n);
    RequestParsePrint(s);
    RequestPrintParse(Acquire(n));
    RequestPrintParse(TryAcquire(n));
    RequestPrintParse(Release(n));
    RequestPrintParse(Status(n));
    RequestPrintParse(List);
  }

  lemma RequestTexts(n: Name)
    ensures PrintRequest(Acquire(n)) == "ACQUIRE " + n
    ensures PrintRequest(TryAcquire(n)) == "TRY_ACQUIRE " + n
    ensures PrintRequest(Release(n)) == "RELEASE " + n
    ensures PrintRequest(Status(n)) == "STATUS " + n
    ensures PrintRequest(List) == "LIST"
  {
    Words(n);
  }

  /** Joining with a space, spelt out. */
  lemma Words(n: string)
    ensures Join("ACQUIRE", n) == "ACQUIRE " + n && Join("TRY_ACQUIRE", n) == "TRY_ACQUIRE " + n
    ensures Join("RELEASE", n) == "RELEASE " + n && Join("STATUS", n) == "STATUS " + n
    ensures Join("GRANTED", n) == "GRANTED " + n && Join("DENIED", n) == "DENIED " + n && Join("ERR", n) == "ERR " + n
  {
    assert "ACQUIRE" + " " == "ACQUIRE " && "TRY_ACQUIRE" + " " == "TRY_ACQUIRE ";
    assert "RELEASE" + " " == "RELEASE " && "STATUS" + " " == "STATUS ";
    assert "GRANTED" + " " == "GRANTED " && "DENIED" + " " == "DENIED " && "ERR" + " " == "ERR ";
  }

  // ---------------------------------------------------------------------------
  // Responses
  // ---------------------------------------------------------------------------

  /** What the servers send. */
  lemma ResponseTexts(n: Name, m: string)
    ensures PrintResponse(Ok) == "OK" && PrintResponse(ListBegin) == "LIST" && PrintResponse(ListEnd) == "END"
    ensures PrintResponse(ListEntry(n)) == n
    ensures PrintResponse(Granted(n)) == "GRANTED " + n
    ensures PrintResponse(Denied(n)) == "DENIED " + n
    ensures PrintResponse(Err("")) == "ERR" && (m != "" ==> PrintResponse(Err(m)) == "ERR " + m)
  {
    Words(n);
    Words(m);
  }

  lemma RefusalTexts()
    ensures PrintResponse(ALREADY_HELD) == "ERR already held" && PrintResponse(NOT_HELD) == "ERR not held"
  {
    assert "ERR" + " " + "already held" == "ERR already held" && "ERR" + " " + "not held" == "ERR not held";
  }

  lemma StatusTexts(n: Name, h: ClientId, w: nat)
    ensures PrintResponse(StatusFree(n, w)) == "STATUS " + (n + " FREE " + PrintNat(w))
    ensures PrintResponse(StatusHeld(n, h, w)) == "STATUS " + (n + " HELD " + PrintNat(h) + " " + PrintNat(w))
  {
    StatusText(n, "FREE", PrintNat(w));
    StatusText(n, "HELD", Join(PrintNat(h), PrintNat(w)));
    assert n + " HELD " + Join(PrintNat(h), PrintNat(w)) == n + " HELD " + PrintNat(h) + " " + PrintNat(w);
  }

  lemma StatusText(n: string, kind: string, numbers: string)
    requires kind == "FREE" || kind == "HELD"
    ensures kind == "FREE" ==> Join("STATUS", Join(n, Join(kind, numbers))) == "STATUS " + (n + " FREE " + numbers)
    ensures kind == "HELD" ==> Join("STATUS", Join(n, Join(kind, numbers))) == "STATUS " + (n + " HELD " + numbers)
  {
    assert "STATUS" + " " == "STATUS ";
    assert n + " " + (kind + " " + numbers) == n + (" " + kind + " ") + numbers;
    assert " " + "FREE" + " " == " FREE " && " " + "HELD" + " " == " HELD ";
  }

  /** The first word of a line, and what follows it. */
  lemma FirstWord(s: string, word: string)
    requires ' ' !in word
    ensures SplitFirst(s).0 == word <==> s == word || word + " " <= s
    ensures s == word ==> SplitFirst(s).1.None?
    ensures word + " " <= s ==> SplitFirst(s).1 == Some(s[|word| + 1..]) && s == word + " " + s[|word| + 1..]
  {
    SplitJoins(s);
    if s == word {
      SplitAtSpace(word, "");
    } else if word + " " <= s {
      assert s == Join(word, s[|word| + 1..]);
      SplitAtSpace(word, s[|word| + 1..]);
    }
  }

  /** Which lines are taken for which response. Trailing words are ignored here ... */
  lemma MarkerLines(s: string)
    ensures ParseResponse(s) == Some(Ok) <==> s == "OK" || "OK " <= s
    ensures ParseResponse(s) == Some(ListBegin) <==> s == "LIST" || "LIST " <= s
    ensures ParseResponse(s) == Some(ListEnd) <==> s == "END" || "END " <= s
  {
    FirstWord(s, "OK");
    FirstWord(s, "LIST");
    FirstWord(s, "END");
    assert "OK" + " " == "OK " && "LIST" + " " == "LIST " && "END" + " " == "END ";
  }

  lemma VerbAndName(s: string, verb: string, n: Name)
    requires ' ' !in verb && ValidName(n)
    ensures SplitFirst(s).0 == verb && LenientName(SplitFirst(s).1) == Some(n)
       <==> s == verb + " " + n || verb + " " + n + " " <= s
  {
    FirstWord(s, verb);
    NameHasNoSpace(n);
    if verb + " " <= s {
      FirstWord(s[|verb| + 1..], n);
    }
  }

  /** ... and here ... */
  lemma GrantLines(s: string, n: Name)
    ensures ParseResponse(s) == Some(Granted(n))
       <==> ValidName(n) && (s == "GRANTED " + n || "GRANTED " + n + " " <= s)
    ensures ParseResponse(s) == Some(Denied(n))
       <==> ValidName(n) && (s == "DENIED " + n || "DENIED " + n + " " <= s)
  {
    ParsedIsRepresentable(s);
    if ValidName(n) {
      VerbAndName(s, "GRANTED", n);
      VerbAndName(s, "DENIED", n);
    }
    assert "GRANTED" + " " == "GRANTED " && "DENIED" + " " == "DENIED ";
  }

  /** The text is this, or this and further words. */
  predicate TextIs(text: string, start: string) {
    text == start || start + " " <= text
  }

  lemma Peel(text: string, word: string, rest: string)
    requires ' ' !in word
    ensures TextIs(text, word + " " + rest)
       <==> SplitFirst(text).0 == word && SplitFirst(text).1.Some? && TextIs(SplitFirst(text).1.value, rest)
  {
    FirstWord(text, word);
    if word + " " <= text {
      var tail := text[|word| + 1..];
      assert text == word + " " + tail;
      assert word + " " + rest + " " == word + " " + (rest + " ");
    }
  }

  /** One word that is read as the number. */
  predicate IsNumber(d: string, v: nat) {
    ' ' !in d && ParseNat(d) == Some(v)
  }

  lemma StatusOf(s: string, start: string)
    ensures TextIs(s, "STATUS " + start)
       <==> SplitFirst(s).0 == "STATUS" && SplitFirst(s).1.Some? && TextIs(SplitFirst(s).1.value, start)
  {
    assert "STATUS" + " " == "STATUS ";
    Peel(s, "STATUS", start);
  }

  lemma FreeStatus(text: string, n: Name, d: string)
    requires ValidName(n) && ' ' !in d
    ensures TextIs(text, n + " FREE " + d)
       <==> var (name, rest) := SplitFirst(text);
            name == n && rest.Some? && SplitFirst(rest.value).0 == "FREE" && SplitFirst(rest.value).1.Some?
            && SplitFirst(SplitFirst(rest.value).1.value).0 == d
  {
    NameHasNoSpace(n);
    assert n + " FREE " + d == n + " " + ("FREE" + " " + d);
    Peel(text, n, "FREE" + " " + d);
    if SplitFirst(text).1.Some? {
      var rest := SplitFirst(text).1.value;
      Peel(rest, "FREE", d);
      if SplitFirst(rest).1.Some? {
        FirstWord(SplitFirst(rest).1.value, d);
      }
    }
  }

  /** The status of a free lock is read from its name, the word and a number, ... */
  lemma FreeLineRead(s: string, n: Name, w: nat, d: string)
    requires ValidName(n) && IsNumber(d, w) && TextIs(s, "STATUS " + (n + " FREE " + d))
    ensures ParseResponse(s) == Some(StatusFree(n, w))
  {
    StatusOf(s, n + " FREE " + d);
    FreeStatus(SplitFirst(s).1.value, n, d);
  }

  /** ... and from nothing else, ... */
  lemma FreeLineOnly(s: string) returns (d: string)
    requires ParseResponse(s).Some? && ParseResponse(s).value.StatusFree?
    ensures var r := ParseResponse(s).value;
      ValidName(r.name) && IsNumber(d, r.waiters) && TextIs(s, "STATUS " + (r.name + " FREE " + d))
  {
    var text := SplitFirst(s).1.value;
    var number := SplitFirst(SplitFirst(text).1.value).1.value;
    d := SplitFirst(number).0;
    SplitJoins(number);
    FreeStatus(text, SplitFirst(text).0, d);
    StatusOf(s, SplitFirst(text).0 + " FREE " + d);
  }

  lemma HeldStatus(text: string, n: Name, d: string, e: string)
    requires ValidName(n) && ' ' !in d && ' ' !in e
    ensures TextIs(text, n + " HELD " + d + " " + e)
       <==> var (name, rest) := SplitFirst(text);
            name == n && rest.Some? && SplitFirst(rest.value).0 == "HELD" && SplitFirst(rest.value).1.Some?
            && var numbers := SplitFirst(rest.value).1.value;
               SplitFirst(numbers).0 == d && SplitFirst(numbers).1.Some?
               && SplitFirst(SplitFirst(numbers).1.value).0 == e
  {
    NameHasNoSpace(n);
    assert n + " HELD " + d + " " + e == n + " " + ("HELD" + " " + (d + " " + e));
    Peel(text, n, "HELD" + " " + (d + " " + e));
    if SplitFirst(text).1.Some? {
      var rest := SplitFirst(text).1.value;
      Peel(rest, "HELD", d + " " + e);
      if SplitFirst(rest).1.Some? {
        var numbers := SplitFirst(rest).1.value;
        Peel(numbers, d, e);
        if SplitFirst(numbers).1.Some? {
          FirstWord(SplitFirst(numbers).1.value, e);
        }
      }
    }
  }

  /** ... and that of a held one from its name, the word, its holder and a number, ... */
  lemma HeldLineRead(s: string, n: Name, h: ClientId, w: nat, d: string, e: string)
    requires ValidName(n) && IsNumber(d, h) && IsNumber(e, w)
    requires TextIs(s, "STATUS " + (n + " HELD " + d + " " + e))
    ensures ParseResponse(s) == Some(StatusHeld(n, h, w))
  {
    StatusOf(s, n + " HELD " + d + " " + e);
    HeldTextRead(SplitFirst(s).1.value, n, h, w, d, e);
  }

  lemma HeldTextRead(text: string, n: Name, h: ClientId, w: nat, d: string, e: string)
    requires ValidName(n) && IsNumber(d, h) && IsNumber(e, w) && TextIs(text, n + " HELD " + d + " " + e)
    ensures ParseStatus(text) == Some(StatusHeld(n, h, w))
  {
    HeldStatus(text, n, d, e);
  }

  /** ... and from nothing else. */
  lemma HeldLineOnly(s: string) returns (d: string, e: string)
    requires ParseResponse(s).Some? && ParseResponse(s).value.StatusHeld?
    ensures var r := ParseResponse(s).value;
      && ValidName(r.name) && IsNumber(d, r.holder) && IsNumber(e, r.waiters)
      && TextIs(s, "STATUS " + (r.name + " HELD " + d + " " + e))
  {
    var text := SplitFirst(s).1.value;
    var numbers := SplitFirst(SplitFirst(text).1.value).1.value;
    d, e := SplitFirst(numbers).0, SplitFirst(SplitFirst(numbers).1.value).0;
    SplitJoins(numbers);
    SplitJoins(SplitFirst(numbers).1.value);
    HeldStatus(text, SplitFirst(text).0, d, e);
    StatusOf(s, SplitFirst(text).0 + " HELD " + d + " " + e);
  }

  /** ... but a listed name is the whole line ... */
  lemma EntryLines(s: string, n: Name)
    ensures ParseResponse(s) == Some(ListEntry(n))
       <==> s == n && ValidName(n) && n != "OK" && n != "LIST" && n != "END" && n != "ERR"
            && n != "GRANTED" && n != "DENIED" && n != "STATUS"
  {
    SplitJoins(s);
    if ValidName(n) {
      NameHasNoSpace(n);
      FirstWord(s, n);
    }
  }

  /** ... and an error message the rest of it. */
  lemma ErrorLines(s: string, m: string)
    ensures ParseResponse(s) == Some(Err(m)) <==> s == "ERR " + m || (s == "ERR" && m == "")
  {
    FirstWord(s, "ERR");
    assert "ERR" + " " == "ERR ";
    assert s == "ERR " + m ==> s[4..] == m;
  }
}
