/**
 * The functions of Go's strings, strconv and net packages that the profile code calls.
 *
 * A Go string is a sequence of bytes; it is modelled as a `string` whose characters are
 * byte values (see `IsBytes`).
 */
module GoStrings {
  import opened Options

  predicate IsBytes(s: string) {
    forall i :: 0 <= i < |s| ==> s[i] as int < 0x100
  }

  predicate HasPrefix(s: string, prefix: string) {
    prefix <= s
  }

  predicate HasSuffix(s: string, suffix: string) {
    |suffix| <= |s| && s[|s| - |suffix|..] == suffix
  }

  function TrimSuffix(s: string, suffix: string): string {
    if HasSuffix(s, suffix) then s[..|s| - |suffix|] else s
  }

  /** A prefix or suffix is what something was put behind or before. */
  lemma PrefixesAndSuffixes(s: string, part: string)
    ensures HasPrefix(s, part) <==> exists rest: string :: s == part + rest
    ensures HasSuffix(s, part) <==> exists rest: string :: s == rest + part
    ensures TrimSuffix(s + part, part) == s
    ensures !HasSuffix(s, part) ==> TrimSuffix(s, part) == s
  {
    if HasPrefix(s, part) { assert s == part + s[|part|..]; }
    if HasSuffix(s, part) { assert s == s[..|s| - |part|] + part; }
    if rest: string :| s == part + rest { assert s[..|part|] == part; }
    if rest: string :| s == rest + part { assert s[|rest|..] == part; }
    assert (s + part)[|s|..] == part && (s + part)[..|s|] == s;
  }

  // --- strings.Split and strings.Join on a one-character separator

  function Split(s: string, sep: char): (fields: seq<string>)
    ensures |fields| > 0
  {
    if s == "" then [""]
    else if s[0] == sep then [""] + Split(s[1..], sep)
    else var rest := Split(s[1..], sep); [[s[0]] + rest[0]] + rest[1..]
  }

  function Join(fields: seq<string>, sep: char): string {
    if |fields| == 0 then ""
    else if |fields| == 1 then fields[0]
    else fields[0] + [sep] + Join(fields[1..], sep)
  }

  ghost predicate FreeOf(fields: seq<string>, sep: char) {
    forall i :: 0 <= i < |fields| ==> sep !in fields[i]
  }

  lemma {:induction false} SplitNoSep(s: string, sep: char)
    requires sep !in s
    ensures Split(s, sep) == [s]
  {
    if s != "" {
      assert s[0] in s && forall c :: c in s[1..] ==> c in s;
      SplitNoSep(s[1..], sep);
      assert s == [s[0]] + s[1..];
    }
  }

  lemma {:induction false} SplitHead(s: string, rest: string, sep: char)
    requires sep !in s
    ensures Split(s + [sep] + rest, sep) == [s] + Split(rest, sep)
  {
    var t := s + [sep] + rest;
    if s == "" {
      assert t[1..] == rest;
    } else {
      assert s[0] in s && forall c :: c in s[1..] ==> c in s;
      SplitHead(s[1..], rest, sep);
      assert t[1..] == s[1..] + [sep] + rest;
      assert s == [s[0]] + s[1..];
      var tail := [s[1..]] + Split(rest, sep);
      assert tail[1..] == Split(rest, sep);
    }
  }

  /** Splitting what was joined gives the fields back, when none contains the separator. */
  lemma {:induction false} SplitJoin(fields: seq<string>, sep: char)
    requires |fields| > 0 && FreeOf(fields, sep)
    ensures Split(Join(fields, sep), sep) == fields
  {
    if |fields| == 1 {
      SplitNoSep(fields[0], sep);
      assert fields == [fields[0]];
    } else {
      assert FreeOf(fields[1..], sep);
      SplitJoin(fields[1..], sep);
      SplitHead(fields[0], Join(fields[1..], sep), sep);
      assert fields == [fields[0]] + fields[1..];
    }
  }

  /** The fields of a split are free of the separator and consist of characters of the string. */
  lemma {:induction false} SplitFree(s: string, sep: char)
    ensures FreeOf(Split(s, sep), sep)
    ensures IsBytes(s) ==> forall i :: 0 <= i < |Split(s, sep)| ==> IsBytes(Split(s, sep)[i])
  {
    if s != "" {
      SplitFree(s[1..], sep);
      if IsBytes(s) { assert IsBytes(s[1..]); }
    }
  }

  lemma {:induction false} JoinBytes(fields: seq<string>, sep: char)
    requires sep as int < 0x100 && forall i :: 0 <= i < |fields| ==> IsBytes(fields[i])
    ensures IsBytes(Join(fields, sep))
  {
    if |fields| > 1 { JoinBytes(fields[1..], sep); }
  }

  // --- strings.Join(strings.Fields(s), "")

  /** The length of the white-space character at the front of `s` in UTF-8, 0 if there is none:
      the characters for which unicode.IsSpace holds. */
  function SpaceLen(s: string): (n: nat)
    ensures n <= |s|
  {
    var at := (i: nat) => if i < |s| then s[i] as int else 0x100;
    if 0x09 <= at(0) <= 0x0D || at(0) == 0x20 then 1
    else if at(0) == 0xC2 && (at(1) == 0x85 || at(1) == 0xA0) then 2
    else if at(0) == 0xE1 && at(1) == 0x9A && at(2) == 0x80 then 3
    else if at(0) == 0xE2 && at(1) == 0x80
            && (0x80 <= at(2) <= 0x8A || at(2) == 0xA8 || at(2) == 0xA9 || at(2) == 0xAF) then 3
    else if at(0) == 0xE2 && at(1) == 0x81 && at(2) == 0x9F then 3
    else if at(0) == 0xE3 && at(1) == 0x80 && at(2) == 0x80 then 3
    else 0
  }

  /** The code points for which unicode.IsSpace holds. */
  predicate IsSpaceRune(c: nat) {
    0x09 <= c <= 0x0D || c == 0x20 || c == 0x85 || c == 0xA0 || c == 0x1680 || 0x2000 <= c <= 0x200A
    || c == 0x2028 || c == 0x2029 || c == 0x202F || c == 0x205F || c == 0x3000
  }

  /** UTF-8 up to three bytes (RFC 3629, section 3). */
  function Utf8(c: nat): string
    requires c < 0x1_0000
  {
    if c < 0x80 then [c as char]
    else if c < 0x800 then [(0xC0 + c / 0x40) as char, (0x80 + c % 0x40) as char]
    else [(0xE0 + c / 0x1000) as char, (0x80 + c / 0x40 % 0x40) as char, (0x80 + c % 0x40) as char]
  }

  /** White space at the front is exactly the encoding of such a code point. */
  lemma SpaceLenOfRune(c: nat, rest: string)
    requires c < 0x1_0000 && IsSpaceRune(c)
    ensures SpaceLen(Utf8(c) + rest) == |Utf8(c)|
  {}

  lemma SpaceLenIsRune(s: string)
    requires SpaceLen(s) > 0
    ensures exists c: nat :: c < 0x1_0000 && IsSpaceRune(c) && s[..SpaceLen(s)] == Utf8(c)
  {
    var n := SpaceLen(s);
    assert n <= 3;
    var c: nat := if n == 1 then s[0] as int
                  else if n == 2 then (s[0] as int - 0xC0) * 0x40 + (s[1] as int - 0x80)
                  else (s[0] as int - 0xE0) * 0x1000 + (s[1] as int - 0x80) * 0x40 + (s[2] as int - 0x80);
    hide Utf8;
    assert c < 0x1_0000 && IsSpaceRune(c);
    SpaceLenOfRune(c, s[n..]);
    Utf8Is(c, s[..n]);
  }

  lemma Utf8Is(c: nat, bytes: string)
    requires 1 <= |bytes| <= 3
    requires |bytes| == 1 ==> bytes[0] as int == c < 0x80
    requires |bytes| == 2 ==> 0x80 <= bytes[1] as int < 0xC0 && 0x80 <= c < 0x800
                              && c == (bytes[0] as int - 0xC0) * 0x40 + (bytes[1] as int - 0x80)
    requires |bytes| == 3 ==> 0x80 <= bytes[1] as int < 0xC0 && 0x80 <= bytes[2] as int < 0xC0 && 0x800 <= c < 0x1_0000
                              && c == (bytes[0] as int - 0xE0) * 0x1000 + (bytes[1] as int - 0x80) * 0x40
                                      + (bytes[2] as int - 0x80)
    ensures bytes == Utf8(c)
  {
    if |bytes| == 2 {
      SixBits(c, bytes[0] as int - 0xC0, bytes[1] as int - 0x80);
    } else if |bytes| == 3 {
      var high := (bytes[0] as int - 0xE0) * 0x40 + (bytes[1] as int - 0x80);
      SixBits(c, high, bytes[2] as int - 0x80);
      SixBits(high, bytes[0] as int - 0xE0, bytes[1] as int - 0x80);
      assert c / 0x1000 == high / 0x40;
    }
  }

  lemma SixBits(c: int, high: int, low: int)
    requires c == high * 0x40 + low && 0 <= low < 0x40
    ensures c / 0x40 == high && c % 0x40 == low
  {}

  function StripSpace(s: string): string {
    if s == "" then ""
    else if SpaceLen(s) > 0 then StripSpace(s[SpaceLen(s)..])
    else [s[0]] + StripSpace(s[1..])
  }

  /** `g` consists of white-space characters only. */
  predicate AllSpace(g: string) {
    g == "" || (SpaceLen(g) > 0 && AllSpace(g[SpaceLen(g)..]))
  }

  /** `s` with gaps[i] inserted before its i-th character and the last gap at the end. */
  function Weave(s: string, gaps: seq<string>): string
    requires |gaps| == |s| + 1
  {
    if s == "" then gaps[0] else gaps[0] + [s[0]] + Weave(s[1..], gaps[1..])
  }

  lemma SpaceLenExtends(g: string, t: string)
    requires SpaceLen(g) > 0
    ensures SpaceLen(g + t) == SpaceLen(g)
  {}

  lemma {:induction false} StripGap(g: string, t: string)
    requires AllSpace(g)
    ensures StripSpace(g + t) == StripSpace(t)
    decreases |g|
  {
    if g == "" {
      assert g + t == t;
    } else {
      SpaceLenExtends(g, t);
      StripGap(g[SpaceLen(g)..], t);
      assert (g + t)[SpaceLen(g)..] == g[SpaceLen(g)..] + t;
    }
  }

  /** Characters that neither are nor begin white space. */
  predicate Solid(s: string) {
    forall i :: 0 <= i < |s| ==> 0x20 < s[i] as int < 0x80
  }

  /** White space inserted anywhere is removed again. */
  lemma {:induction false} StripWeave(s: string, gaps: seq<string>)
    requires |gaps| == |s| + 1 && Solid(s) && forall i :: 0 <= i < |gaps| ==> AllSpace(gaps[i])
    ensures StripSpace(Weave(s, gaps)) == s
  {
    if s == "" {
      StripGap(gaps[0], "");
      assert gaps[0] + "" == gaps[0];
    } else {
      var t := [s[0]] + Weave(s[1..], gaps[1..]);
      StripGap(gaps[0], t);
      assert Weave(s, gaps) == gaps[0] + t;
      assert Solid(s[1..]);
      assert SpaceLen(t) == 0;
      StripWeave(s[1..], gaps[1..]);
      assert t[1..] == Weave(s[1..], gaps[1..]);
    }
  }

  lemma {:induction false} StripSolid(s: string)
    requires Solid(s)
    ensures StripSpace(s) == s
  {
    if s != "" {
      assert Solid(s[1..]);
      StripSolid(s[1..]);
    }
  }

  // --- strconv.Atoi

  predicate IsDigits(s: string) {
    forall i :: 0 <= i < |s| ==> '0' <= s[i] <= '9'
  }

  function DigitsValue(s: string): nat
    requires IsDigits(s)
  {
    if s == "" then 0
    else
      DigitsValue(s[..|s| - 1]) * 10 + (s[|s| - 1] as int - '0' as int)
  }

  /** An optional sign and at least one digit, within the range of a 64-bit int. */
  function Atoi(s: string): Option<int> {
    var digits := if s != "" && (s[0] == '+' || s[0] == '-') then s[1..] else s;
    if digits == "" || !IsDigits(digits) then None
    else
      var v := if s[0] == '-' then -(DigitsValue(digits) as int) else DigitsValue(digits) as int;
      if -0x8000_0000_0000_0000 <= v < 0x8000_0000_0000_0000 then Some(v) else None
  }

  /** A number in decimal, as strconv.Itoa writes it. */
  function Decimal(n: int): string
    decreases if n < 0 then -n + 1 else n
  {
    if n < 0 then "-" + Decimal(-n)
    else if n < 10 then [('0' as int + n) as char]
    else Decimal(n / 10) + [('0' as int + n % 10) as char]
  }

  lemma {:induction false} DecimalDigits(n: nat)
    ensures Decimal(n) != "" && IsDigits(Decimal(n)) && DigitsValue(Decimal(n)) == n
  {
    if n < 10 {
      assert Decimal(n)[..0] == "";
    } else {
      DecimalDigits(n / 10);
      assert Decimal(n)[..|Decimal(n)| - 1] == Decimal(n / 10);
    }
  }

  /** Atoi reads back every number that fits 64 bits, and refuses the others. */
  lemma AtoiReadsDecimal(n: int)
    ensures Atoi(Decimal(n)) == if -0x8000_0000_0000_0000 <= n < 0x8000_0000_0000_0000 then Some(n) else None
  {
    DecimalDigits(if n < 0 then -n else n);
    if n < 0 { assert Decimal(n)[1..] == Decimal(-n); }
  }

  /** What it accepts: an optional sign and then digits only, at least one. */
  lemma AtoiAccepts(s: string)
    requires Atoi(s).Some?
    ensures s != "" && forall i :: 0 <= i < |s| ==>
              '0' <= s[i] <= '9' || (i == 0 && |s| > 1 && (s[0] == '+' || s[0] == '-'))
  {
    var digits := if s[0] == '+' || s[0] == '-' then s[1..] else s;
    forall i | 0 <= i < |s|
      ensures '0' <= s[i] <= '9' || (i == 0 && |s| > 1 && (s[0] == '+' || s[0] == '-'))
    {
      if digits == s { assert s[i] == digits[i]; } else if i > 0 { assert s[i] == digits[i - 1]; }
    }
  }

  // --- net.SplitHostPort

  function LastIndex(s: string, c: char): (i: int)
    ensures -1 <= i < |s|
    ensures if i < 0 then c !in s else s[i] == c && c !in s[i + 1..]
  {
    if s == "" then -1
    else if s[|s| - 1] == c then |s| - 1
    else LastIndex(s[..|s| - 1], c)
  }

  function Index(s: string, c: char): (i: int)
    ensures -1 <= i < |s|
    ensures if i < 0 then c !in s else s[i] == c && c !in s[..i]
  {
    if s == "" then -1
    else if s[0] == c then 0
    else var i := Index(s[1..], c); if i < 0 then -1 else i + 1
  }

  /** Host and port of "host:port" or "[host]:port"; `None` for every error. */
  function SplitHostPort(addr: string): Option<(string, string)> {
    var i := LastIndex(addr, ':');
    if i < 0 then None
    else if addr[0] == '[' then
      var end := Index(addr, ']');
      if end < 0 || end + 1 != i then None
      else if '[' in addr[1..] || ']' in addr[end + 1..] then None
      else Some((addr[1..end], addr[i + 1..]))
    else if ':' in addr[..i] || '[' in addr || ']' in addr then None
    else Some((addr[..i], addr[i + 1..]))
  }

  lemma {:induction false} LastIndexIs(s: string, c: char, i: nat)
    requires i < |s| && s[i] == c && forall j :: i < j < |s| ==> s[j] != c
    ensures LastIndex(s, c) == i
  {
    if i < |s| - 1 { LastIndexIs(s[..|s| - 1], c, i); }
  }

  predicate Plain(s: string) {
    forall i :: 0 <= i < |s| ==> s[i] != ':' && s[i] != '[' && s[i] != ']'
  }

  /** A host and a port without colons or brackets are what "host:port" splits into. */
  lemma SplitHostPortPlain(host: string, port: string)
    requires Plain(host) && Plain(port)
    ensures SplitHostPort(host + ":" + port) == Some((host, port))
  {
    var addr := host + ":" + port;
    LastIndexIs(addr, ':', |host|);
    assert addr[..|host|] == host && addr[|host| + 1..] == port;
    forall j | 0 <= j < |addr| ensures addr[j] != '[' && addr[j] != ']' {}
  }

  /** Without a bracket a host, with brackets an IPv6 address: these two forms and no other are
      taken apart, and into what. */
  lemma SplitHostPortExactly(addr: string, host: string, port: string)
    ensures SplitHostPort(addr) == Some((host, port)) <==>
            || (addr == host + ":" + port && Plain(host) && Plain(port))
            || (addr == "[" + host + "]:" + port && '[' !in host && ']' !in host && Plain(port))
  {
    if SplitHostPort(addr) == Some((host, port)) { SplitParts(addr); }
    if addr == host + ":" + port && Plain(host) && Plain(port) { SplitHostPortPlain(host, port); }
    if addr == "[" + host + "]:" + port && '[' !in host && ']' !in host && Plain(port) {
      SplitBracketed(host, port);
    }
  }

  lemma SplitParts(addr: string)
    requires SplitHostPort(addr).Some?
    ensures var (host, port) := SplitHostPort(addr).value;
            || (addr == host + ":" + port && Plain(host) && Plain(port))
            || (addr == "[" + host + "]:" + port && '[' !in host && ']' !in host && Plain(port))
  {
    var i := LastIndex(addr, ':');
    var (host, port) := SplitHostPort(addr).value;
    assert port == addr[i + 1..];
    if addr[0] == '[' {
      var end := Index(addr, ']');
      assert addr == "[" + host + "]:" + port;
      forall j | 0 <= j < |port| ensures port[j] != ':' && port[j] != '[' && port[j] != ']' {
        assert port[j] == addr[1..][i + j] && port[j] == addr[end + 1..][j + 1];
      }
      forall j | 0 <= j < |host| ensures host[j] != '[' && host[j] != ']' {
        assert host[j] == addr[1..][j] && host[j] == addr[..end][j + 1];
      }
    } else {
      assert addr == host + ":" + port;
    }
  }

  lemma SplitBracketed(host: string, port: string)
    requires '[' !in host && ']' !in host && Plain(port)
    ensures SplitHostPort("[" + host + "]:" + port) == Some((host, port))
  {
    var addr, end := "[" + host + "]:" + port, |host| + 1;
    assert addr[end] == ']' && addr[end + 1] == ':';
    LastIndexIs(addr, ':', end + 1);
    IndexIs(addr, ']', end);
    assert addr[1..end] == host && addr[end + 2..] == port;
  }

  lemma {:induction false} IndexIs(s: string, c: char, i: nat)
    requires i < |s| && s[i] == c && forall j :: 0 <= j < i ==> s[j] != c
    ensures Index(s, c) == i
  {
    if i > 0 { IndexIs(s[1..], c, i - 1); }
  }

  lemma SplitHostPortBytes(addr: string)
    requires IsBytes(addr) && SplitHostPort(addr).Some?
    ensures IsBytes(SplitHostPort(addr).value.0) && IsBytes(SplitHostPort(addr).value.1)
  {
    var i := LastIndex(addr, ':');
    assert IsBytes(addr[i + 1..]);
  }
}
