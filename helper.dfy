/**
 * helper.py: byte-budget truncation, the e-mail and phone validators, the
 * HTML rendering of policy objects, and the drain of the throttling retry
 * queue.
 */
module Helper {

  import opened Wrappers
  import opened Py
  import opened Strings
  import opened Utf8
  import opened Insly

  // =====================================================================
  // truncate_utf8

  /** The default `byte_limit` of `truncate_utf8`. */
  const DefaultByteLimit: int := 255

  /** How many of `n` bytes the Python slice `b[:k]` keeps (`k` may be negative). */
  function SliceStop(n: nat, k: int): (r: nat)
    ensures r <= n
    ensures 0 <= k ==> r == if k < n then k else n
  {
    if 0 <= k then (if k < n then k else n)
    else if 0 < n + k then n + k
    else 0
  }

  /** `r` is the longest character prefix of `s` whose encoding fits in `budget` bytes. */
  predicate IsLongestFittingPrefix(r: string, s: string, budget: nat) {
    && |r| <= |s| && r == s[..|r|]
    && |Encode(r)| <= budget
    && (|r| == |s| || budget < |Encode(s[..|r| + 1])|)
  }

  /** Length of the longest prefix of `s` whose encoding fits in `budget`. */
  function FitLength(s: string, budget: nat): (k: nat)
    ensures k <= |s|
    ensures IsLongestFittingPrefix(s[..k], s, budget)
    decreases |s|
  {
    if |Encode(s)| <= budget then
      EncodeWhole(s);
      |s|
    else
      var t := s[..|s| - 1];
      var k := FitLength(t, budget);
      assert t[..k] == s[..k];
      assert k < |t| ==> t[..k + 1] == s[..k + 1];
      assert k == |t| ==> s[..k + 1] == s;
      k
  }

  /** Decoding the first `budget` bytes of an encoding drops only the cut character. */
  lemma TruncatedDecode(s: string, budget: nat)
    requires budget <= |Encode(s)|
    ensures FitLength(s, budget) <= |s|
    ensures DecodeIgnore(Encode(s)[..budget]) == s[..FitLength(s, budget)]
  {
    var k := FitLength(s, budget);
    if k == |s| {
      assert s[..k] == s;
      assert Encode(s)[..budget] == Encode(s);
      DecodeEncode(s);
    } else {
      CutInsideChar(s, k, budget);
    }
  }

  /** A cut inside the encoding of `s[k]` decodes to the characters before it. */
  lemma CutInsideChar(s: string, k: nat, budget: nat)
    requires k < |s| && budget <= |Encode(s)|
    requires |Encode(s[..k])| <= budget < |Encode(s[..k + 1])|
    ensures DecodeIgnore(Encode(s)[..budget]) == s[..k]
  {
    var head := Encode(s[..k]);
    var c := EncodeChar(s[k]);
    EncodePrefixStep(s, k);
    assert s == s[..k + 1] + s[k + 1..];
    EncodeAppend(s[..k + 1], s[k + 1..]);
    var cut := budget - |head|;
    PrefixOfConcat(head, c, Encode(s[k + 1..]), budget);
    DecodeEncodeAppend(s[..k], c[..cut]);
    DecodeIncomplete(s[k], cut);
    assert s[..k] + [] == s[..k];
  }

  lemma PrefixOfConcat(a: seq<byte>, b: seq<byte>, c: seq<byte>, n: nat)
    requires |a| <= n <= |a| + |b|
    ensures (a + b + c)[..n] == a + b[..n - |a|]
  {
  }

  /**
   * `truncate_utf8(value, byte_limit)`: a falsy value gives "", otherwise the
   * encoding is cut after `byte_limit` bytes (a Python slice) and decoded
   * with `errors="ignore"`.
   */
  function TruncateUtf8(value: Option<string>, byteLimit: int): (r: string)
    ensures value.None? ==> r == ""
    ensures value.Some? ==>
              IsLongestFittingPrefix(r, value.value, SliceStop(|Encode(value.value)|, byteLimit))
  {
    if value.None? || value.value == "" then ""
    else
      var s := value.value;
      var e := Encode(s);
      var stop := SliceStop(|e|, byteLimit);
      TruncatedDecode(s, stop);
      DecodeIgnore(e[..stop])
  }

  /** For a non-negative limit the result's encoding fits the limit. */
  lemma TruncateFitsLimit(value: Option<string>, byteLimit: int)
    requires 0 <= byteLimit
    ensures |Encode(TruncateUtf8(value, byteLimit))| <= byteLimit
  {
  }

  /** A string that already fits comes back unchanged. */
  lemma TruncateKeepsFittingString(s: string, byteLimit: int)
    requires |Encode(s)| <= byteLimit
    ensures TruncateUtf8(Some(s), byteLimit) == s
  {
    var r := TruncateUtf8(Some(s), byteLimit);
    if |r| < |s| {
      EncodePrefixMonotone(s, |r| + 1, |s|);
      EncodeWhole(s);
    }
  }

  /** Truncating twice to the same non-negative limit is truncating once. */
  lemma TruncateIdempotent(s: string, byteLimit: int)
    requires 0 <= byteLimit
    ensures TruncateUtf8(Some(TruncateUtf8(Some(s), byteLimit)), byteLimit) == TruncateUtf8(Some(s), byteLimit)
  {
    TruncateKeepsFittingString(TruncateUtf8(Some(s), byteLimit), byteLimit);
  }

  // =====================================================================
  // is_email_valid: re.match(r"[^@ \t\r\n]+@[^@ \t\r\n]+\.[^@ \t\r\n]+", email)

  /** A character of the class `[^@ \t\r\n]`. */
  predicate EmailChar(c: char) {
    c != '@' && c != ' ' && c != '\t' && c != '\r' && c != '\n'
  }

  predicate AllEmailChars(s: string) {
    forall k | 0 <= k < |s| :: EmailChar(s[k])
  }

  /**
   * One way the pattern matches a string: `local@domain.suffix` followed by
   * anything (`re.match` anchors only the start).  Every part is a non-empty
   * run of the class; `domain` and `suffix` may themselves contain dots.
   */
  datatype EmailMatch = EmailMatch(local: string, domain: string, suffix: string, rest: string) {
    predicate Valid() {
      && local != [] && domain != [] && suffix != []
      && AllEmailChars(local) && AllEmailChars(domain) && AllEmailChars(suffix)
    }

    function Text(): string {
      local + "@" + domain + "." + suffix + rest
    }
  }

  /** The regular expression's meaning: some way of matching exists. */
  ghost predicate MatchesEmailPattern(s: string) {
    exists m: EmailMatch :: m.Valid() && m.Text() == s
  }

  /** The end of the maximal run of class characters that starts at `i`. */
  function RunEnd(s: string, i: nat): (e: nat)
    requires i <= |s|
    ensures i <= e <= |s|
    ensures forall k | i <= k < e :: EmailChar(s[k])
    ensures e == |s| || !EmailChar(s[e])
    decreases |s| - i
  {
    if i == |s| || !EmailChar(s[i]) then i else RunEnd(s, i + 1)
  }

  /**
   * The scanner: the run before the first '@' must be non-empty and end at
   * an '@'; the run after it must hold a '.' with a class character on each
   * side.
   */
  function ScanEmail(s: string): (r: Option<EmailMatch>)
    ensures r.Some? ==> r.value.Valid() && r.value.Text() == s
  {
    var p := RunEnd(s, 0);
    if p == 0 || p == |s| || s[p] != '@' then None
    else
      var e := RunEnd(s, p + 1);
      if e < p + 4 then None
      else
        match IndexOf(s[p + 2..e - 1], '.')
        case None => None
        case Some(j0) =>
          var j := p + 2 + j0;
          SplitAtMarks(s, p, j, e);
          Some(EmailMatch(s[..p], s[p + 1..j], s[j + 1..e], s[e..]))
  }

  /** Cutting at the '@' and the '.' gives back the string. */
  lemma SplitAtMarks(s: string, p: nat, j: nat, e: nat)
    requires p < j < e <= |s| && s[p] == '@' && s[j] == '.'
    ensures EmailMatch(s[..p], s[p + 1..j], s[j + 1..e], s[e..]).Text() == s
  {
    assert s == s[..p] + [s[p]] + s[p + 1..j] + [s[j]] + s[j + 1..e] + s[e..];
  }

  /** `is_email_valid(email)` for a string argument. */
  predicate IsEmailValid(s: string) {
    ScanEmail(s).Some?
  }

  /** A run that ends at a non-class character ends there. */
  lemma RunEndStops(s: string, i: nat, e: nat)
    requires i <= e < |s|
    requires forall k | i <= k < e :: EmailChar(s[k])
    requires !EmailChar(s[e])
    ensures RunEnd(s, i) == e
  {
  }

  /** A run covering `[i, e)` reaches at least `e`. */
  lemma RunEndBeyond(s: string, i: nat, e: nat)
    requires i <= e <= |s|
    requires forall k | i <= k < e :: EmailChar(s[k])
    ensures e <= RunEnd(s, i)
  {
  }

  /** The scanner accepts every string the pattern matches. */
  lemma ScanEmailComplete(m: EmailMatch)
    requires m.Valid()
    ensures IsEmailValid(m.Text())
  {
    var s := m.Text();
    var p := |m.local|;
    var j := p + 1 + |m.domain|;
    var end := j + 1 + |m.suffix|;
    EmailTextLayout(m);
    RunEndStops(s, 0, p);
    RunEndBeyond(s, p + 1, end);
    var e := RunEnd(s, p + 1);
    assert s[p + 2..e - 1][j - p - 2] == '.';
  }

  /** Where the parts of a match sit in its text. */
  lemma EmailTextLayout(m: EmailMatch)
    requires m.Valid()
    ensures |m.Text()| == |m.local| + |m.domain| + |m.suffix| + |m.rest| + 2
    ensures forall k | 0 <= k < |m.local| :: EmailChar(m.Text()[k])
    ensures m.Text()[|m.local|] == '@'
    ensures forall k | |m.local| < k < |m.local| + 1 + |m.domain| :: EmailChar(m.Text()[k])
    ensures m.Text()[|m.local| + 1 + |m.domain|] == '.'
    ensures forall k | |m.local| + 1 + |m.domain| < k < |m.local| + 2 + |m.domain| + |m.suffix| :: EmailChar(m.Text()[k])
  {
    var t4 := m.suffix + m.rest;
    var t2 := m.domain + "." + t4;
    var s := m.local + "@" + t2;
    assert m.Text() == s;
    var p := |m.local|;
    var j := p + 1 + |m.domain|;
    forall k | 0 <= k < p ensures EmailChar(s[k]) {
      assert s[k] == m.local[k];
    }
    forall k | p < k < j ensures EmailChar(s[k]) {
      assert s[k] == t2[k - p - 1] == m.domain[k - p - 1];
    }
    forall k | j < k < j + 1 + |m.suffix| ensures EmailChar(s[k]) {
      assert s[k] == t2[k - p - 1] == t4[k - j - 1] == m.suffix[k - j - 1];
    }
  }

  /** `is_email_valid` holds exactly when the pattern matches at the start. */
  lemma EmailValidIffPatternMatches(s: string)
    ensures IsEmailValid(s) <==> MatchesEmailPattern(s)
  {
    if MatchesEmailPattern(s) {
      var m: EmailMatch :| m.Valid() && m.Text() == s;
      ScanEmailComplete(m);
    }
  }

  // =====================================================================
  // is_phone_valid:
  //   re.match(r"^[\+]?[(]?[0-9]{3}[)]?[-\s\.]?[0-9]{3}[-\s\.]?[0-9]{4,6}$", phone)

  /** `\s`, restricted to the ASCII whitespace characters. */
  predicate IsSpace(c: char) {
    c == ' ' || c == '\t' || c == '\n' || c == '\r' || c as int == 0x0B || c as int == 0x0C
  }

  /** The class `[-\s\.]`. */
  predicate IsSeparator(c: char) {
    c == '-' || c == '.' || IsSpace(c)
  }

  function Flag(present: bool, c: char): string {
    if present then [c] else []
  }

  function OptChar(c: Option<char>): string {
    if c.Some? then [c.value] else []
  }

  /**
   * One way the phone pattern matches: each optional piece present or not,
   * three, three and four to six digits, and a final newline that `$`
   * tolerates.
   */
  datatype PhoneMatch = PhoneMatch(
    plus: bool, open: bool, area: string, close: bool, sep1: Option<char>,
    exchange: string, sep2: Option<char>, line: string, newline: bool)
  {
    predicate Valid() {
      && |area| == 3 && AllDigits(area)
      && |exchange| == 3 && AllDigits(exchange)
      && 4 <= |line| <= 6 && AllDigits(line)
      && (sep1.Some? ==> IsSeparator(sep1.value))
      && (sep2.Some? ==> IsSeparator(sep2.value))
    }

    function Text(): string {
      Flag(plus, '+') + (Flag(open, '(') + FromArea(area, close, sep1, exchange, sep2, line, newline))
    }
  }

  /** The text from the last digit group on. */
  function LineText(line: string, newline: bool): string {
    line + Flag(newline, '\n')
  }

  /** The text from the second digit group on. */
  function FromExchange(exchange: string, sep2: Option<char>, line: string, newline: bool): string {
    exchange + (OptChar(sep2) + LineText(line, newline))
  }

  /** The text from the first digit group on. */
  function FromArea(area: string, close: bool, sep1: Option<char>,
                    exchange: string, sep2: Option<char>, line: string, newline: bool): string {
    area + (Flag(close, ')') + (OptChar(sep1) + FromExchange(exchange, sep2, line, newline)))
  }

  ghost predicate MatchesPhonePattern(s: string) {
    exists m: PhoneMatch :: m.Valid() && m.Text() == s
  }

  /** Consumes `c` if the string starts with it. */
  function Optional(s: string, c: char): (r: (bool, string))
    ensures Flag(r.0, c) + r.1 == s
  {
    if s != [] && s[0] == c then (true, s[1..]) else (false, s)
  }

  /** Consumes a separator if the string starts with one. */
  function OptionalSeparator(s: string): (r: (Option<char>, string))
    ensures OptChar(r.0) + r.1 == s
    ensures r.0.Some? ==> IsSeparator(r.0.value)
  {
    if s != [] && IsSeparator(s[0]) then (Some(s[0]), s[1..]) else (None, s)
  }

  /** `[0-9]{4,6}$`: four to six digits, then the end or a final newline. */
  function ScanLine(s: string): (r: Option<(string, bool)>)
    ensures r.Some? ==> 4 <= |r.value.0| <= 6 && AllDigits(r.value.0)
    ensures r.Some? ==> LineText(r.value.0, r.value.1) == s
  {
    if 4 <= |s| <= 6 && AllDigits(s) then Some((s, false))
    else if 5 <= |s| <= 7 && s[|s| - 1] == '\n' && AllDigits(s[..|s| - 1]) then Some((s[..|s| - 1], true))
    else None
  }

  /** `[0-9]{3}[-\s\.]?[0-9]{4,6}$`. */
  function ScanFromExchange(s: string): (r: Option<(string, Option<char>, string, bool)>)
    ensures r.Some? ==> |r.value.0| == 3 && AllDigits(r.value.0)
    ensures r.Some? ==> r.value.1.Some? ==> IsSeparator(r.value.1.value)
    ensures r.Some? ==> 4 <= |r.value.2| <= 6 && AllDigits(r.value.2)
    ensures r.Some? ==> FromExchange(r.value.0, r.value.1, r.value.2, r.value.3) == s
  {
    if |s| < 3 || !AllDigits(s[..3]) then None
    else
      var (sep2, rest) := OptionalSeparator(s[3..]);
      match ScanLine(rest)
      case None => None
      case Some((line, nl)) =>
        assert s == s[..3] + s[3..];
        Some((s[..3], sep2, line, nl))
  }

  /** The pattern after the optional `+` and `(`. */
  function ScanFromArea(s: string): (r: Option<PhoneMatch>)
    ensures r.Some? ==> r.value.Valid() && !r.value.plus && !r.value.open
    ensures r.Some? ==> FromArea(r.value.area, r.value.close, r.value.sep1, r.value.exchange,
                                 r.value.sep2, r.value.line, r.value.newline) == s
  {
    if |s| < 3 || !AllDigits(s[..3]) then None
    else
      var (close, s1) := Optional(s[3..], ')');
      var (sep1, s2) := OptionalSeparator(s1);
      match ScanFromExchange(s2)
      case None => None
      case Some((exchange, sep2, line, nl)) =>
        assert s == s[..3] + s[3..];
        Some(PhoneMatch(false, false, s[..3], close, sep1, exchange, sep2, line, nl))
  }

  /** The scanner: each optional piece is taken exactly when it is there. */
  function ScanPhone(s: string): (r: Option<PhoneMatch>)
    ensures r.Some? ==> r.value.Valid() && r.value.Text() == s
  {
    var (plus, s1) := Optional(s, '+');
    var (open, s2) := Optional(s1, '(');
    match ScanFromArea(s2)
    case None => None
    case Some(m) => Some(m.(plus := plus, open := open))
  }

  /** `is_phone_valid(phone)` for a string argument. */
  predicate IsPhoneValid(s: string) {
    ScanPhone(s).Some?
  }

  lemma OptionalSkips(t: string, present: bool, c: char)
    requires t == [] || t[0] != c
    ensures Optional(Flag(present, c) + t, c) == (present, t)
  {
    if present {
      assert (Flag(present, c) + t)[1..] == t;
    } else {
      assert Flag(present, c) + t == t;
    }
  }

  lemma OptionalSeparatorSkips(t: string, sep: Option<char>)
    requires t != [] && IsDigit(t[0])
    requires sep.Some? ==> IsSeparator(sep.value)
    ensures OptionalSeparator(OptChar(sep) + t) == (sep, t)
  {
    if sep.Some? {
      assert (OptChar(sep) + t)[1..] == t;
    } else {
      assert OptChar(sep) + t == t;
    }
  }

  lemma ScanLineComplete(line: string, newline: bool)
    requires 4 <= |line| <= 6 && AllDigits(line)
    ensures ScanLine(LineText(line, newline)) == Some((line, newline))
  {
    var t := LineText(line, newline);
    if newline {
      assert !IsDigit(t[|t| - 1]);
      assert t[..|t| - 1] == line;
    } else {
      assert t == line;
    }
  }

  lemma ScanFromExchangeComplete(exchange: string, sep2: Option<char>, line: string, newline: bool)
    requires |exchange| == 3 && AllDigits(exchange)
    requires sep2.Some? ==> IsSeparator(sep2.value)
    requires 4 <= |line| <= 6 && AllDigits(line)
    ensures ScanFromExchange(FromExchange(exchange, sep2, line, newline)) == Some((exchange, sep2, line, newline))
  {
    var tail := LineText(line, newline);
    var s := FromExchange(exchange, sep2, line, newline);
    assert tail[0] == line[0];
    assert s[..3] == exchange && s[3..] == OptChar(sep2) + tail;
    OptionalSeparatorSkips(tail, sep2);
    ScanLineComplete(line, newline);
  }

  lemma ScanFromAreaComplete(m: PhoneMatch)
    requires m.Valid()
    ensures ScanFromArea(FromArea(m.area, m.close, m.sep1, m.exchange, m.sep2, m.line, m.newline))
            == Some(m.(plus := false, open := false))
  {
    var fx := FromExchange(m.exchange, m.sep2, m.line, m.newline);
    var t3 := OptChar(m.sep1) + fx;
    var t2 := Flag(m.close, ')') + t3;
    var s := FromArea(m.area, m.close, m.sep1, m.exchange, m.sep2, m.line, m.newline);
    assert s == m.area + t2;
    assert s[..3] == m.area && s[3..] == t2;
    assert fx[0] == m.exchange[0];
    assert t3[0] == (if m.sep1.Some? then m.sep1.value else fx[0]);
    OptionalSkips(t3, m.close, ')');
    OptionalSeparatorSkips(fx, m.sep1);
    ScanFromExchangeComplete(m.exchange, m.sep2, m.line, m.newline);
  }

  /** The scanner reads every matching string back into the same pieces. */
  lemma ScanPhoneComplete(m: PhoneMatch)
    requires m.Valid()
    ensures ScanPhone(m.Text()) == Some(m)
  {
    var fa := FromArea(m.area, m.close, m.sep1, m.exchange, m.sep2, m.line, m.newline);
    var t0 := Flag(m.open, '(') + fa;
    assert fa[0] == m.area[0];
    assert t0[0] == (if m.open then '(' else fa[0]);
    OptionalSkips(t0, m.plus, '+');
    OptionalSkips(fa, m.open, '(');
    ScanFromAreaComplete(m);
  }

  /** `is_phone_valid` holds exactly when the pattern matches the whole string. */
  lemma PhoneValidIffPatternMatches(s: string)
    ensures IsPhoneValid(s) <==> MatchesPhonePattern(s)
  {
    if MatchesPhonePattern(s) {
      var m: PhoneMatch :| m.Valid() && m.Text() == s;
      ScanPhoneComplete(m);
    }
  }

  /** Number of ASCII digits in `s`. */
  function DigitCount(s: string): nat {
    if s == [] then 0 else (if IsDigit(s[0]) then 1 else 0) + DigitCount(s[1..])
  }

  lemma {:induction false} DigitCountAppend(s: string, t: string)
    ensures DigitCount(s + t) == DigitCount(s) + DigitCount(t)
  {
    if s == [] {
      assert s + t == t;
    } else {
      assert (s + t)[1..] == s[1..] + t;
      DigitCountAppend(s[1..], t);
    }
  }

  lemma {:induction false} DigitCountAll(s: string)
    requires AllDigits(s)
    ensures DigitCount(s) == |s|
  {
    if s != [] {
      DigitCountAll(s[1..]);
    }
  }

  lemma DigitCountNone(c: char)
    requires !IsDigit(c)
    ensures DigitCount([c]) == 0
  {
    assert [c][1..] == [];
  }

  lemma DigitCountFlag(present: bool, c: char)
    requires !IsDigit(c)
    ensures DigitCount(Flag(present, c)) == 0
  {
    if present { DigitCountNone(c); }
  }

  lemma DigitCountOptChar(c: Option<char>)
    requires c.Some? ==> !IsDigit(c.value)
    ensures DigitCount(OptChar(c)) == 0
  {
    if c.Some? { DigitCountNone(c.value); }
  }

  lemma DigitCountFromExchange(exchange: string, sep2: Option<char>, line: string, newline: bool)
    requires AllDigits(exchange) && AllDigits(line)
    requires sep2.Some? ==> IsSeparator(sep2.value)
    ensures DigitCount(FromExchange(exchange, sep2, line, newline)) == |exchange| + |line|
  {
    DigitCountAll(exchange);
    DigitCountAll(line);
    DigitCountFlag(newline, '\n');
    DigitCountOptChar(sep2);
    DigitCountAppend(line, Flag(newline, '\n'));
    DigitCountAppend(OptChar(sep2), LineText(line, newline));
    DigitCountAppend(exchange, OptChar(sep2) + LineText(line, newline));
  }

  lemma DigitCountFromArea(m: PhoneMatch)
    requires m.Valid()
    ensures DigitCount(FromArea(m.area, m.close, m.sep1, m.exchange, m.sep2, m.line, m.newline))
            == |m.area| + |m.exchange| + |m.line|
  {
    var fx := FromExchange(m.exchange, m.sep2, m.line, m.newline);
    var t3 := OptChar(m.sep1) + fx;
    var t2 := Flag(m.close, ')') + t3;
    DigitCountFromExchange(m.exchange, m.sep2, m.line, m.newline);
    DigitCountAll(m.area);
    DigitCountOptChar(m.sep1);
    DigitCountFlag(m.close, ')');
    DigitCountAppend(OptChar(m.sep1), fx);
    DigitCountAppend(Flag(m.close, ')'), t3);
    DigitCountAppend(m.area, t2);
  }

  /** An accepted phone number always holds ten to twelve digits. */
  lemma PhoneDigitCount(s: string)
    requires IsPhoneValid(s)
    ensures 10 <= DigitCount(s) <= 12
  {
    var m := ScanPhone(s).value;
    var fa := FromArea(m.area, m.close, m.sep1, m.exchange, m.sep2, m.line, m.newline);
    var t0 := Flag(m.open, '(') + fa;
    assert s == Flag(m.plus, '+') + t0;
    DigitCountFromArea(m);
    DigitCountFlag(m.open, '(');
    DigitCountFlag(m.plus, '+');
    DigitCountAppend(Flag(m.open, '('), fa);
    DigitCountAppend(Flag(m.plus, '+'), t0);
  }
  // =====================================================================
  // format_objects_to_html

  /** No character `html.escape` would have replaced, except `&`. */
  predicate NoMarkup(s: string) {
    forall k | 0 <= k < |s| :: s[k] != '<' && s[k] != '>' && s[k] != '"' && s[k] != '\''
  }

  /** `html.escape` on one character (`quote=True`). */
  function EscapeChar(c: char): (r: string)
    ensures NoMarkup(r) && 1 <= |r| <= 6
    ensures c != '&' && c != '<' && c != '>' && c != '"' && c != '\'' <==> r == [c]
  {
    if c == '&' then "&amp;"
    else if c == '<' then "&lt;"
    else if c == '>' then "&gt;"
    else if c == '"' then "&quot;"
    else if c == '\'' then "&#x27;"
    else [c]
  }

  /**
   * `html.escape(s)`: replacing `&` first and then `<`, `>`, `"`, `'` is
   * the same as mapping every character on its own, because no replacement
   * text holds a character replaced after it.
   */
  function Escape(s: string): (r: string)
    ensures NoMarkup(r)
    ensures |s| <= |r| <= 6 * |s|
  {
    if s == [] then [] else EscapeChar(s[0]) + Escape(s[1..])
  }

  predicate StartsWith(s: string, prefix: string) {
    |prefix| <= |s| && s[..|prefix|] == prefix
  }

  /** The inverse of `Escape`: each of the five entities turns back into its character. */
  function Unescape(s: string): string
    decreases |s|
  {
    if s == [] then []
    else if StartsWith(s, "&amp;") then "&" + Unescape(s[5..])
    else if StartsWith(s, "&lt;") then "<" + Unescape(s[4..])
    else if StartsWith(s, "&gt;") then ">" + Unescape(s[4..])
    else if StartsWith(s, "&quot;") then "\"" + Unescape(s[6..])
    else if StartsWith(s, "&#x27;") then "'" + Unescape(s[6..])
    else [s[0]] + Unescape(s[1..])
  }

  /** A string that differs from `prefix` at some position does not start with it. */
  lemma DiffersAt(s: string, prefix: string, k: nat)
    requires k < |s| && k < |prefix| && s[k] != prefix[k]
    ensures !StartsWith(s, prefix)
  {
  }

  lemma StartsWithEntity(e: string, t: string)
    ensures StartsWith(e + t, e) && (e + t)[|e|..] == t
  {
    assert (e + t)[..|e|] == e;
  }

  lemma UnescapeEscapeChar(c: char, t: string)
    ensures Unescape(EscapeChar(c) + t) == [c] + Unescape(t)
  {
    var e := EscapeChar(c);
    var s := e + t;
    StartsWithEntity(e, t);
    assert s[0] == e[0];
    if c == '&' {
    } else if c == '<' {
      DiffersAt(s, "&amp;", 1);
    } else if c == '>' {
      DiffersAt(s, "&amp;", 1);
      DiffersAt(s, "&lt;", 1);
    } else if c == '"' {
      DiffersAt(s, "&amp;", 1);
      DiffersAt(s, "&lt;", 1);
      DiffersAt(s, "&gt;", 1);
    } else if c == '\'' {
      DiffersAt(s, "&amp;", 1);
      DiffersAt(s, "&lt;", 1);
      DiffersAt(s, "&gt;", 1);
      DiffersAt(s, "&quot;", 1);
    } else {
      DiffersAt(s, "&amp;", 0);
      DiffersAt(s, "&lt;", 0);
      DiffersAt(s, "&gt;", 0);
      DiffersAt(s, "&quot;", 0);
      DiffersAt(s, "&#x27;", 0);
    }
  }

  /** Unescaping an escaped string gives it back: escaping loses nothing. */
  lemma {:induction false} EscapeRoundTrip(s: string)
    ensures Unescape(Escape(s)) == s
  {
    if s != [] {
      UnescapeEscapeChar(s[0], Escape(s[1..]));
      EscapeRoundTrip(s[1..]);
      assert [s[0]] + s[1..] == s;
    }
  }

  /** One line of an object's block: its caption, the dictionary key and the unit after the value. */
  datatype FieldSpec = FieldSpec(caption: string, key: string, unit: string)

  /** The nine lines of a block, in order. */
  const ObjectFields: seq<FieldSpec> := [
    FieldSpec("Vehicle Type", "vehicle_type", ""),
    FieldSpec("License Plate", "vehicle_licenseplate", ""),
    FieldSpec("Make", "vehicle_make", ""),
    FieldSpec("Model", "vehicle_model", ""),
    FieldSpec("VIN", "vehicle_vincode", ""),
    FieldSpec("Year", "vehicle_year", ""),
    FieldSpec("Power", "vehicle_power", " HP"),
    FieldSpec("Gross Weight", "vehicle_grossweight", " kg"),
    FieldSpec("Owner", "vehicle_owner_name", "")
  ]

  const NotAvailable: string := "N/A"
  const LineOpen: string := "<strong>"
  const LineMid: string := ":</strong> "
  const LineClose: string := "<br>"
  const ItemOpen: string := "<li>"
  const ItemClose: string := "</li><br>"
  const ListHead: string := "<h3>Policy Objects</h3><ul>"
  const ListTail: string := "</ul>"

  /** `obj.get(key)`. */
  function Lookup(obj: map<string, Value>, key: string): Value {
    if key in obj then obj[key] else Null
  }

  /**
   * `escape(obj.get(key) or 'N/A')`: a missing or falsy value shows as N/A,
   * a string is escaped, and any other value has no `.replace`.
   */
  function FieldText(obj: map<string, Value>, key: string): Result<string, Exception> {
    var v := Lookup(obj, key);
    if !Truthy(v) then Success(NotAvailable)
    else if v.Str? then Success(Escape(v.s))
    else Failure(Other)
  }

  /**
   * What a rendered field holds: N/A for a missing or falsy value, text
   * that unescapes back to the value for a string, and never a raw `<`,
   * `>` or quote; any other value raises.
   */
  lemma FieldTextMeaning(obj: map<string, Value>, key: string)
    ensures !Truthy(Lookup(obj, key)) ==> FieldText(obj, key) == Success(NotAvailable)
    ensures Truthy(Lookup(obj, key)) && Lookup(obj, key).Str? ==>
              FieldText(obj, key).Success? && Unescape(FieldText(obj, key).value) == Lookup(obj, key).s
    ensures Truthy(Lookup(obj, key)) && !Lookup(obj, key).Str? ==> FieldText(obj, key) == Failure(Other)
    ensures FieldText(obj, key).Success? ==> NoMarkup(FieldText(obj, key).value)
  {
    var v := Lookup(obj, key);
    if Truthy(v) && v.Str? {
      EscapeRoundTrip(v.s);
    }
  }

  /** A value `FieldText` can render. */
  predicate Renderable(v: Value) {
    !Truthy(v) || v.Str?
  }

  /** Every field of the block renders. */
  predicate RenderableObject(obj: map<string, Value>) {
    forall j | 0 <= j < |ObjectFields| :: Renderable(Lookup(obj, ObjectFields[j].key))
  }

  function FieldLine(f: FieldSpec, obj: map<string, Value>): Result<string, Exception> {
    match FieldText(obj, f.key)
    case Failure(e) => Failure(e)
    case Success(t) => Success(LineOpen + f.caption + LineMid + t + f.unit + LineClose)
  }

  /** The lines of `fields` in order; the first field that cannot render raises. */
  function FieldLines(fields: seq<FieldSpec>, obj: map<string, Value>): Result<string, Exception>
    decreases |fields|
  {
    if fields == [] then Success("")
    else
      match FieldLines(fields[..|fields| - 1], obj)
      case Failure(e) => Failure(e)
      case Success(init) =>
        match FieldLine(fields[|fields| - 1], obj)
        case Failure(e) => Failure(e)
        case Success(line) => Success(init + line)
  }

  /** The `<li>` block around rendered lines. */
  function ListItem(lines: Result<string, Exception>): Result<string, Exception> {
    match lines
    case Failure(e) => Failure(e)
    case Success(text) => Success(ItemOpen + text + ItemClose)
  }

  /** The `<li>` block of one object. */
  function ObjectBlock(obj: map<string, Value>): Result<string, Exception> {
    ListItem(FieldLines(ObjectFields, obj))
  }

  /** The body of the loop of `format_objects_to_html`: the nine lines of one object, in order. */
  method RenderObject(obj: map<string, Value>) returns (r: Result<string, Exception>)
    ensures r == ObjectBlock(obj)
  {
    var lines := "";
    for j := 0 to |ObjectFields|
      invariant FieldLines(ObjectFields[..j], obj) == Success(lines)
    {
      assert ObjectFields[..j + 1][..j] == ObjectFields[..j];
      var line := FieldLine(ObjectFields[j], obj);
      if line.Failure? {
        FieldLinesFailureSticks(ObjectFields, j + 1, obj);
        return Failure(line.error);
      }
      lines := lines + line.value;
    }
    assert ObjectFields[..|ObjectFields|] == ObjectFields;
    return Success(ItemOpen + lines + ItemClose);
  }

  lemma {:induction false} FieldLinesFailureSticks(fields: seq<FieldSpec>, j: nat, obj: map<string, Value>)
    requires j <= |fields|
    requires FieldLines(fields[..j], obj).Failure?
    ensures FieldLines(fields, obj) == FieldLines(fields[..j], obj)
    decreases |fields| - j
  {
    if j < |fields| {
      assert fields[..j + 1][..j] == fields[..j];
      FieldLinesFailureSticks(fields, j + 1, obj);
    } else {
      assert fields[..j] == fields;
    }
  }

  /** Rendered pieces joined in order, or the exception of the first piece that failed. */
  function Join(rs: seq<Result<string, Exception>>): Result<string, Exception>
    decreases |rs|
  {
    if rs == [] then Success("")
    else
      match Join(rs[..|rs| - 1])
      case Failure(e) => Failure(e)
      case Success(init) =>
        match rs[|rs| - 1]
        case Failure(e) => Failure(e)
        case Success(b) => Success(init + b)
  }

  /** The block of each object, one per object, in order. */
  function Renderings(objects: seq<map<string, Value>>): (rs: seq<Result<string, Exception>>)
    ensures |rs| == |objects|
    decreases |objects|
  {
    if objects == [] then []
    else Renderings(objects[..|objects| - 1]) + [ObjectBlock(objects[|objects| - 1])]
  }

  /** The i-th rendering is the block of the i-th object. */
  lemma {:induction false} RenderingsAt(objects: seq<map<string, Value>>, i: nat)
    requires i < |objects|
    ensures Renderings(objects)[i] == ObjectBlock(objects[i])
    decreases |objects|
  {
    if i < |objects| - 1 {
      var init := objects[..|objects| - 1];
      RenderingsAt(init, i);
    }
  }

  lemma {:induction false} RenderingsAppend(a: seq<map<string, Value>>, b: seq<map<string, Value>>)
    ensures Renderings(a + b) == Renderings(a) + Renderings(b)
    decreases |b|
  {
    if b == [] {
      assert a + b == a;
    } else {
      var bi := b[..|b| - 1];
      assert (a + b)[..|a + b| - 1] == a + bi;
      RenderingsAppend(a, bi);
    }
  }

  /** The whole document: the heading, the blocks, the closing tag. */
  function Document(objects: seq<map<string, Value>>): Result<string, Exception> {
    match Join(Renderings(objects))
    case Failure(e) => Failure(e)
    case Success(b) => Success(ListHead + b + ListTail)
  }

  /** The block of the i-th object, as `Renderings` has it. */
  method RenderAt(objects: seq<map<string, Value>>, i: nat) returns (block: Result<string, Exception>)
    requires i < |objects|
    ensures block == Renderings(objects)[i]
  {
    block := RenderObject(objects[i]);
    RenderingsAt(objects, i);
  }

  /** `format_objects_to_html(objects)`, building the document left to right. */
  method FormatObjectsToHtml(objects: seq<map<string, Value>>) returns (r: Result<string, Exception>)
    ensures r == Document(objects)
  {
    ghost var rs := Renderings(objects);
    var htmlContent := ListHead;
    ghost var body := "";
    assert rs[..0] == [];
    assert htmlContent == ListHead + body;
    for i := 0 to |objects|
      invariant Join(rs[..i]) == Success(body)
      invariant htmlContent == ListHead + body
    {
      var block := RenderAt(objects, i);
      if block.Failure? {
        r := Failure(block.error);
        assert r == Document(objects) by {
          JoinStep(rs, i, body);
          JoinFailureSticks(rs, i + 1);
        }
        return;
      }
      assert Join(rs[..i + 1]) == Success(body + block.value) by {
        JoinStep(rs, i, body);
      }
      htmlContent := htmlContent + block.value;
      body := body + block.value;
    }
    htmlContent := htmlContent + ListTail;
    r := Success(htmlContent);
    assert r == Document(objects) by {
      assert rs[..|objects|] == rs;
    }
  }

  lemma JoinStep(rs: seq<Result<string, Exception>>, i: nat, body: string)
    requires i < |rs|
    requires Join(rs[..i]) == Success(body)
    ensures rs[i].Success? ==> Join(rs[..i + 1]) == Success(body + rs[i].value)
    ensures rs[i].Failure? ==> Join(rs[..i + 1]) == Failure(rs[i].error)
  {
    assert rs[..i + 1][..i] == rs[..i];
  }

  lemma {:induction false} JoinFailureSticks(rs: seq<Result<string, Exception>>, i: nat)
    requires i <= |rs|
    requires Join(rs[..i]).Failure?
    ensures Join(rs) == Join(rs[..i])
    decreases |rs| - i
  {
    if i < |rs| {
      assert rs[..i + 1][..i] == rs[..i];
      JoinFailureSticks(rs, i + 1);
    } else {
      assert rs[..i] == rs;
    }
  }

  /** Joining succeeds exactly when every piece does, and fails with the error of the first failed piece. */
  lemma {:induction false} JoinSucceedsIff(rs: seq<Result<string, Exception>>)
    ensures Join(rs).Success? <==> forall i | 0 <= i < |rs| :: rs[i].Success?
    ensures Join(rs).Failure? ==> exists i | 0 <= i < |rs| :: rs[i] == Failure(Join(rs).error)
    decreases |rs|
  {
    if rs != [] {
      var init := rs[..|rs| - 1];
      JoinSucceedsIff(init);
      assert forall i | 0 <= i < |init| :: init[i] == rs[i];
    }
  }

  lemma {:induction false} JoinAppend(a: seq<Result<string, Exception>>, b: seq<Result<string, Exception>>)
    requires Join(a).Success? && Join(b).Success?
    ensures Join(a + b) == Success(Join(a).value + Join(b).value)
    decreases |b|
  {
    if b == [] {
      assert a + b == a;
      assert Join(a).value + "" == Join(a).value;
    } else {
      var bi := b[..|b| - 1];
      assert (a + b)[..|a + b| - 1] == a + bi;
      JoinAppend(a, bi);
      var x, y, z := Join(a).value, Join(bi).value, b[|b| - 1].value;
      assert x + y + z == x + (y + z);
    }
  }

  lemma {:induction false} FieldLinesSucceedIff(fields: seq<FieldSpec>, obj: map<string, Value>)
    ensures FieldLines(fields, obj).Success? <==> forall j | 0 <= j < |fields| :: Renderable(Lookup(obj, fields[j].key))
    ensures FieldLines(fields, obj).Failure? ==> FieldLines(fields, obj).error == Other
    decreases |fields|
  {
    if fields != [] {
      var init := fields[..|fields| - 1];
      FieldLinesSucceedIff(init, obj);
      assert forall j | 0 <= j < |init| :: init[j] == fields[j];
    }
  }

  /**
   * The document renders exactly when every field of every object is
   * missing, falsy or a string; otherwise it raises.
   */
  lemma DocumentSucceedsIff(objects: seq<map<string, Value>>)
    ensures Document(objects).Success? <==> forall i | 0 <= i < |objects| :: RenderableObject(objects[i])
    ensures Document(objects).Failure? ==> Document(objects).error == Other
  {
    var rs := Renderings(objects);
    JoinSucceedsIff(rs);
    forall i | 0 <= i < |objects|
      ensures rs[i].Success? <==> RenderableObject(objects[i])
      ensures rs[i].Failure? ==> rs[i].error == Other
    {
      RenderingsAt(objects, i);
      FieldLinesSucceedIff(ObjectFields, objects[i]);
    }
  }

  /**
   * The document of a concatenation holds the blocks of both parts in
   * order: one block per object, and each object's block depends on that
   * object alone.
   */
  lemma DocumentAppend(a: seq<map<string, Value>>, b: seq<map<string, Value>>)
    requires Join(Renderings(a)).Success? && Join(Renderings(b)).Success?
    ensures Join(Renderings(a + b)) == Success(Join(Renderings(a)).value + Join(Renderings(b)).value)
  {
    RenderingsAppend(a, b);
    JoinAppend(Renderings(a), Renderings(b));
  }

  /** The document of one object is the heading, its block and the closing tag. */
  lemma DocumentSingle(obj: map<string, Value>)
    ensures ObjectBlock(obj).Success? ==> Document([obj]) == Success(ListHead + ObjectBlock(obj).value + ListTail)
    ensures ObjectBlock(obj).Failure? ==> Document([obj]) == Failure(ObjectBlock(obj).error)
  {
    var rs := Renderings([obj]);
    RenderingsAt([obj], 0);
    assert rs == [ObjectBlock(obj)];
    JoinSingle(ObjectBlock(obj));
  }

  lemma JoinSingle(b: Result<string, Exception>)
    ensures b.Success? ==> Join([b]) == Success(b.value)
    ensures b.Failure? ==> Join([b]) == Failure(b.error)
  {
    assert [b][..0] == [];
    if b.Success? {
      assert "" + b.value == b.value;
    }
  }

  // =====================================================================
  // retry_requests

  /** The pause before each retry, in seconds (`wait_time`). */
  const RetryWaitSeconds: int := 40

  /** How the drain of the queue ended: emptied, an exception out of a retried fetch, or no more answers supplied. */
  datatype DrainEnd = Emptied | Escaped(error: Exception) | OutOfAnswers

  /** The end, the queue left behind, and the entries retried, in the order they were retried. */
  datatype Drain = Drain(end: DrainEnd, buffer: seq<RetryEntry>, retried: seq<RetryEntry>)

  /**
   * `retry_requests()` with `fetches[k]` answering the k-th retried fetch:
   * pop the front, fetch again (a 429 puts the entry at the back), until
   * the queue is empty or a fetch raises.
   */
  function DrainQueue(buffer: seq<RetryEntry>, fetches: seq<PolicyFetch>): (d: Drain)
    ensures d.end == Emptied ==> d.buffer == []
    ensures d.end == OutOfAnswers ==> |d.retried| == |fetches| && d.buffer != []
    ensures |d.retried| <= |fetches|
    ensures buffer == [] ==> d == Drain(Emptied, [], [])
    decreases |fetches|
  {
    if buffer == [] then Drain(Emptied, [], [])
    else if fetches == [] then Drain(OutOfAnswers, buffer, [])
    else
      var e := buffer[0];
      var next := buffer[1..] + Enqueued(e.oid, e.counter, fetches[0]);
      match PolicyOutcome(e.oid, fetches[0])
      case Raised(x) => Drain(Escaped(x), next, [e])
      case _ =>
        var d := DrainQueue(next, fetches[1..]);
        Drain(d.end, d.buffer, [e] + d.retried)
  }

  /** One round of the drain: pop the front entry, fetch it, go on unless the fetch raised. */
  lemma DrainUnfold(buffer: seq<RetryEntry>, fetches: seq<PolicyFetch>)
    requires buffer != [] && fetches != []
    ensures var outcome := PolicyOutcome(buffer[0].oid, fetches[0]);
            var next := buffer[1..] + Enqueued(buffer[0].oid, buffer[0].counter, fetches[0]);
            && (outcome.Raised? ==> DrainQueue(buffer, fetches) == Drain(Escaped(outcome.error), next, [buffer[0]]))
            && (!outcome.Raised? ==>
                  var d := DrainQueue(next, fetches[1..]);
                  DrainQueue(buffer, fetches) == Drain(d.end, d.buffer, [buffer[0]] + d.retried))
  {
  }

  /** `retry_requests()` over the module-level queue of `client`. */
  method RetryRequests(client: Client, fetches: seq<PolicyFetch>) returns (end: DrainEnd)
    modifies client
    ensures end == DrainQueue(old(client.retryBuffer), fetches).end
    ensures client.retryBuffer == DrainQueue(old(client.retryBuffer), fetches).buffer
  {
    ghost var retried: seq<RetryEntry> := [];
    var i := 0;
    while client.retryBuffer != []
      invariant 0 <= i <= |fetches|
      invariant DrainQueue(old(client.retryBuffer), fetches)
                == var d := DrainQueue(client.retryBuffer, fetches[i..]); Drain(d.end, d.buffer, retried + d.retried)
      decreases |fetches| - i
    {
      if i == |fetches| {
        return OutOfAnswers;
      }
      ghost var before := client.retryBuffer;
      var entry := client.retryBuffer[0];
      client.retryBuffer := client.retryBuffer[1..];
      var outcome := client.GetCustomerPolicy(entry.oid, entry.counter, fetches[i]);
      assert fetches[i..][0] == fetches[i] && fetches[i..][1..] == fetches[i + 1..];
      DrainUnfold(before, fetches[i..]);
      if outcome.Raised? {
        return Escaped(outcome.error);
      }
      ghost var rest := DrainQueue(client.retryBuffer, fetches[i + 1..]).retried;
      assert retried + ([entry] + rest) == retried + [entry] + rest;
      retried := retried + [entry];
      i := i + 1;
    }
    client.retryBuffer := [];
    return Emptied;
  }

  /** A fetch that is not answered with 429. */
  predicate NotThrottled(f: PolicyFetch) {
    !(f.answer.Response? && f.answer.status == HttpTooManyRequests)
  }

  /** Entries are retried from the front, in queue order. */
  lemma {:induction false} DrainFifo(buffer: seq<RetryEntry>, fetches: seq<PolicyFetch>)
    ensures var d := DrainQueue(buffer, fetches);
            forall j | 0 <= j < |d.retried| && j < |buffer| :: d.retried[j] == buffer[j]
    decreases |fetches|
  {
    if buffer != [] && fetches != [] {
      var e := buffer[0];
      var next := buffer[1..] + Enqueued(e.oid, e.counter, fetches[0]);
      DrainFifo(next, fetches[1..]);
    }
  }

  /**
   * Without throttling every entry is retried once, in order, and the drain
   * ends (emptied, or with an exception) given one answer per entry.
   */
  lemma {:induction false} DrainWithoutThrottle(buffer: seq<RetryEntry>, fetches: seq<PolicyFetch>)
    requires |buffer| <= |fetches|
    requires forall k | 0 <= k < |fetches| :: NotThrottled(fetches[k])
    ensures var d := DrainQueue(buffer, fetches);
            && d.end != OutOfAnswers
            && (d.end == Emptied ==> d.retried == buffer)
            && d.retried <= buffer
    decreases |fetches|
  {
    if buffer != [] {
      var e := buffer[0];
      assert Enqueued(e.oid, e.counter, fetches[0]) == [];
      assert buffer[1..] + [] == buffer[1..];
      DrainWithoutThrottle(buffer[1..], fetches[1..]);
      assert buffer == [e] + buffer[1..];
    }
  }

  /**
   * Under permanent throttling the queue only rotates: it never shrinks,
   * holds the same entries, and the drain never ends.
   */
  lemma {:induction false} DrainPermanentThrottle(buffer: seq<RetryEntry>, fetches: seq<PolicyFetch>)
    requires buffer != []
    requires forall k | 0 <= k < |fetches| :: !NotThrottled(fetches[k])
    ensures var d := DrainQueue(buffer, fetches);
            d.end == OutOfAnswers && multiset(d.buffer) == multiset(buffer)
    decreases |fetches|
  {
    if fetches != [] {
      var e := buffer[0];
      var next := buffer[1..] + [e];
      assert Enqueued(e.oid, e.counter, fetches[0]) == [e];
      assert buffer == [e] + buffer[1..];
      assert multiset(next) == multiset(buffer);
      DrainPermanentThrottle(next, fetches[1..]);
    }
  }
}
