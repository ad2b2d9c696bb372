/** The text that configures smart routing: list files, and CIDR entries in them. */
module TextLists {
  import opened Bytes
  import opened InnerFrame
  import opened Ipv4
  import opened NetConfig

  // ---------------------------------------------------------------- trimming

  /** `std::isspace` in the C locale. */
  predicate IsSpace(c: char) { c == ' ' || 9 as char <= c <= 13 as char }

  function TrimFront(s: string): string {
    if s != [] && IsSpace(s[0]) then TrimFront(s[1..]) else s
  }

  function TrimBack(s: string): string {
    if s != [] && IsSpace(s[|s| - 1]) then TrimBack(s[..|s| - 1]) else s
  }

  function Trim(s: string): string { TrimBack(TrimFront(s)) }

  /** Neither end is a space. */
  predicate Tight(s: string) { s != [] ==> !IsSpace(s[0]) && !IsSpace(s[|s| - 1]) }

  method TrimCopy(text: string) returns (t: string)
    ensures t == Trim(text)
  {
    t := text;
    while t != [] && IsSpace(t[0])
      invariant TrimFront(t) == TrimFront(text)
      decreases |t|
    {
      t := t[1..];
    }
    while t != [] && IsSpace(t[|t| - 1])
      invariant TrimBack(t) == Trim(text)
      decreases |t|
    {
      t := t[..|t| - 1];
    }
  }

  lemma {:induction false} TrimFrontTight(s: string)
    ensures var t := TrimFront(s); (t != [] ==> !IsSpace(t[0])) && forall c :: c in t ==> c in s
  {
    if s != [] && IsSpace(s[0]) {
      TrimFrontTight(s[1..]);
    }
  }

  lemma {:induction false} TrimBackTight(s: string)
    ensures var t := TrimBack(s);
            && t <= s
            && (t != [] ==> !IsSpace(t[|t| - 1]))
            && (s != [] && !IsSpace(s[0]) ==> t != [])
  {
    if s != [] && IsSpace(s[|s| - 1]) {
      TrimBackTight(s[..|s| - 1]);
    }
  }

  /** Trimming invents nothing, leaves both ends tight, and keeps tight text. */
  lemma TrimTight(s: string)
    ensures Tight(Trim(s))
    ensures forall c :: c in Trim(s) ==> c in s
    ensures Tight(s) ==> Trim(s) == s
    ensures s != [] && !IsSpace(s[0]) ==> Trim(s) != [] && Trim(s)[0] == s[0]
  {
    TrimFrontTight(s);
    TrimBackTight(TrimFront(s));
  }

  // ---------------------------------------------------------------- list files

  /** The position of the first `c`, or the length if there is none. */
  function IndexOf(s: string, c: char): (i: nat)
    ensures i <= |s| && (i < |s| ==> s[i] == c) && c !in s[..i] && (i == |s| <==> c !in s)
  {
    if s == [] || s[0] == c then 0
    else
      var i := IndexOf(s[1..], c);
      assert s[..i + 1] == [s[0]] + s[1..][..i];
      assert s == [s[0]] + s[1..];
      i + 1
  }

  /** Successive results of `std::getline`. */
  function Lines(s: string): seq<string>
    decreases |s|
  {
    if s == [] then []
    else
      var i := IndexOf(s, '\n');
      if i == |s| then [s] else [s[..i]] + Lines(s[i + 1..])
  }

  /** What a line contributes: its text before a comment, trimmed, unless that is empty. */
  function EntryOf(line: string): Option<string> {
    var t := Trim(line);
    if t == [] || t[0] == '#' then None
    else
      var i := IndexOf(t, '#');
      var u := if i < |t| then Trim(t[..i]) else t;
      if u == [] then None else Some(u)
  }

  function Entries(lines: seq<string>): seq<string> {
    if lines == [] then []
    else
      var e := EntryOf(lines[|lines| - 1]);
      Entries(lines[..|lines| - 1]) + if e.Some? then [e.value] else []
  }

  function Load(content: string): seq<string> { Entries(Lines(content)) }

  /** `load_list_file`; the file may be missing. */
  method LoadListFile(content: Option<string>) returns (ok: bool, entries: seq<string>)
    ensures ok == content.Some? && entries == if ok then Load(content.value) else []
  {
    entries := [];
    if content.None? {
      return false, [];
    }
    var lines := Lines(content.value);
    var k := 0;
    while k < |lines|
      invariant 0 <= k <= |lines|
      invariant entries == Entries(lines[..k])
    {
      assert lines[..k + 1][..k] == lines[..k];
      var line := TrimCopy(lines[k]);
      k := k + 1;
      if line == [] || line[0] == '#' {
        continue;
      }
      var comment := IndexOf(line, '#');
      if comment != |line| {
        line := TrimCopy(line[..comment]);
      }
      if line != [] {
        entries := entries + [line];
      }
    }
    assert lines[..k] == lines;
    ok := true;
  }

  /** Text that a list can hold as one entry. */
  predicate Normal(e: string) { e != [] && Tight(e) && '#' !in e && '\n' !in e }

  function Unlines(entries: seq<string>): string {
    if entries == [] then [] else entries[0] + ['\n'] + Unlines(entries[1..])
  }

  lemma EntryIsNormal(line: string)
    requires '\n' !in line
    ensures EntryOf(line).Some? ==> Normal(EntryOf(line).value)
  {
    var t := Trim(line);
    TrimTight(line);
    if t != [] && t[0] != '#' {
      var i := IndexOf(t, '#');
      if i < |t| {
        TrimTight(t[..i]);
      }
    }
  }

  lemma NormalIsEntry(e: string)
    requires Normal(e)
    ensures EntryOf(e) == Some(e)
  {
    TrimTight(e);
  }

  lemma {:induction false} LinesHaveNoNewline(s: string)
    ensures forall i :: 0 <= i < |Lines(s)| ==> '\n' !in Lines(s)[i]
    decreases |s|
  {
    if s != [] {
      var i := IndexOf(s, '\n');
      if i < |s| {
        LinesHaveNoNewline(s[i + 1..]);
      }
    }
  }

  lemma {:induction false} EntriesAreNormal(lines: seq<string>)
    requires forall i :: 0 <= i < |lines| ==> '\n' !in lines[i]
    ensures forall i :: 0 <= i < |Entries(lines)| ==> Normal(Entries(lines)[i])
  {
    if lines != [] {
      EntriesAreNormal(lines[..|lines| - 1]);
      EntryIsNormal(lines[|lines| - 1]);
    }
  }

  lemma {:induction false} LinesOfUnlines(entries: seq<string>)
    requires forall i :: 0 <= i < |entries| ==> Normal(entries[i])
    ensures Lines(Unlines(entries)) == entries
  {
    if entries != [] {
      var e, rest := entries[0], Unlines(entries[1..]);
      var s := Unlines(entries);
      assert s[|e|] == '\n' && s[..|e|] == e;
      FirstIndex(s, '\n', |e|);
      assert s[|e| + 1..] == rest;
      LinesOfUnlines(entries[1..]);
    }
  }

  lemma FirstIndex(s: string, c: char, i: nat)
    requires i < |s| && s[i] == c && c !in s[..i]
    ensures IndexOf(s, c) == i
  {
  }

  lemma {:induction false} EntriesOfNormal(entries: seq<string>)
    requires forall i :: 0 <= i < |entries| ==> Normal(entries[i])
    ensures Entries(entries) == entries
  {
    if entries != [] {
      var n := |entries| - 1;
      EntriesOfNormal(entries[..n]);
      NormalIsEntry(entries[n]);
      assert entries == entries[..n] + [entries[n]];
    }
  }

  /** Loading is idempotent: every entry is trimmed, non-empty and free of comments, and writing the entries
      one per line and loading again gives the same list. */
  lemma LoadIsIdempotent(content: string)
    ensures forall i :: 0 <= i < |Load(content)| ==> Normal(Load(content)[i])
    ensures Load(Unlines(Load(content))) == Load(content)
  {
    LinesHaveNoNewline(content);
    EntriesAreNormal(Lines(content));
    LinesOfUnlines(Load(content));
    EntriesOfNormal(Load(content));
  }

  // ---------------------------------------------------------------- CIDR entries

  predicate IsDigit(c: char) { '0' <= c <= '9' }

  function Digits(s: string): string {
    if s != [] && IsDigit(s[0]) then [s[0]] + Digits(s[1..]) else []
  }

  function Decimal(s: string): nat {
    if s == [] then 0
    else 10 * Decimal(s[..|s| - 1]) + if IsDigit(s[|s| - 1]) then s[|s| - 1] as int - '0' as int else 0
  }

  /** `std::stoi`: leading space, a sign, then digits; what follows the digits is ignored. No digits, or a
      number outside `int`, is an exception. */
  function Stoi(s: string): Option<int> {
    var t := TrimFront(s);
    var signed := t != [] && (t[0] == '+' || t[0] == '-');
    var digits := Digits(if signed then t[1..] else t);
    var v := if signed && t[0] == '-' then -(Decimal(digits) as int) else Decimal(digits);
    if digits == [] || v < -0x8000_0000 || v > 0x7FFF_FFFF then None else Some(v)
  }

  /** The address and prefix length an entry states, before masking. */
  function CidrOf(inet: Inet, text: string): Option<(u32, Prefix)> {
    var trimmed := Trim(text);
    var slash := IndexOf(trimmed, '/');
    if slash == |trimmed| then
      var a := inet.parse(trimmed);
      if a.None? then None else Some((a.value, 32))
    else
      var n := Stoi(trimmed[slash + 1..]);
      if n.None? || n.value < 0 || n.value > 32 then None
      else
        var a := inet.parse(Trim(trimmed[..slash]));
        if a.None? then None else Some((a.value, n.value))
  }

  /** The first half of `parse_cidr_prefix`. */
  method ReadCidr(inet: Inet, text: string) returns (r: Option<(u32, Prefix)>)
    ensures r == CidrOf(inet, text)
  {
    var trimmed := TrimCopy(text);
    var slash := IndexOf(trimmed, '/');
    var host := trimmed;
    var prefix: Prefix := 32;
    if slash != |trimmed| {
      host := TrimCopy(trimmed[..slash]);
      var parsed := Stoi(trimmed[slash + 1..]);
      if parsed.None? || parsed.value < 0 || parsed.value > 32 {
        return None;
      }
      prefix := parsed.value;
    }
    var address := inet.parse(host);
    if address.None? {
      return None;
    }
    r := Some((address.value, prefix));
  }

  /** `parse_cidr_prefix`: the network address in dotted form, and the prefix length. */
  method ParseCidrPrefix(inet: Inet, text: string) returns (r: Option<(string, nat)>)
    ensures r == ParseCidr(inet, text)
  {
    var stated := ReadCidr(inet, text);
    if stated.None? {
      return None;
    }
    var (address, prefix) := stated.value;
    var network := inet.format(Masked(address, prefix));
    if network.None? || network.value == "" {
      return None;
    }
    r := Some((network.value, prefix));
  }

  function ParseCidr(inet: Inet, text: string): Option<(string, nat)> {
    match CidrOf(inet, text)
    case None => None
    case Some((a, p)) =>
      var network := inet.format(Masked(a, p));
      if network.None? || network.value == "" then None else Some((network.value, p))
  }

  // ---------------------------------------------------------------- CIDR entries, printed and parsed

  function PrintNat(n: nat): (s: string)
    ensures s != [] && forall i :: 0 <= i < |s| ==> IsDigit(s[i])
  {
    (if n < 10 then [] else PrintNat(n / 10)) + [('0' as int + n % 10) as char]
  }

  lemma {:induction false} DecimalOfPrint(n: nat)
    ensures Decimal(PrintNat(n)) == n
  {
    var init := if n < 10 then [] else PrintNat(n / 10);
    if n >= 10 {
      DecimalOfPrint(n / 10);
    }
    var s := PrintNat(n);
    assert s[..|s| - 1] == init;
    assert Decimal(init) == n / 10;
  }

  lemma {:induction false} DigitsOfDigits(s: string)
    requires forall i :: 0 <= i < |s| ==> IsDigit(s[i])
    ensures Digits(s) == s
  {
    if s != [] {
      DigitsOfDigits(s[1..]);
    }
  }

  lemma StoiOfPrint(n: nat)
    requires n <= 0x7FFF_FFFF
    ensures Stoi(PrintNat(n)) == Some(n)
  {
    var s := PrintNat(n);
    assert IsDigit(s[0]);
    DigitsOfDigits(s);
    DecimalOfPrint(n);
  }

  /** Addresses are written without slashes and without space around them. */
  ghost predicate Plain(inet: Inet) {
    forall a: u32 :: inet.format(a).Some? ==>
      var s := inet.format(a).value; s != [] && Tight(s) && '/' !in s
  }

  /** Both laws can be kept: decimal numerals keep them. */
  lemma LawsArePossible()
    ensures exists inet: Inet :: inet.Lawful() && Plain(inet)
  {
    var inet := Inet((s: string) => if Decimal(s) < TWO_32 then Some(Decimal(s)) else None,
                     (a: u32) => Some(PrintNat(a)));
    forall a: u32 ensures inet.format(a) == Some(PrintNat(a)) && inet.parse(PrintNat(a)) == Some(a) {
      DecimalOfPrint(a);
    }
    assert inet.Lawful();
    assert Plain(inet);
  }

  /** Every address and prefix length, written in the notation of section 3.1 of RFC 4632, is read back as itself
      and parsed to its network address. */
  lemma CidrRoundTrip(inet: Inet, a: u32, p: Prefix)
    requires inet.Lawful() && Plain(inet)
    ensures var text := inet.format(a).value + ['/'] + PrintNat(p);
            && CidrOf(inet, text) == Some((a, p))
            && ParseCidr(inet, text) == Some((inet.format(Masked(a, p)).value, p))
  {
    var text := inet.format(a).value + ['/'] + PrintNat(p);
    CidrShape(inet.format(a).value, PrintNat(p));
    StoiOfPrint(p);
    assert CidrOf(inet, text) == Some((a, p));
    assert inet.format(Masked(a, p)).Some? && inet.format(Masked(a, p)).value != "";
  }

  lemma CidrShape(host: string, digits: string)
    requires host != [] && Tight(host) && '/' !in host
    requires digits != [] && forall i :: 0 <= i < |digits| ==> IsDigit(digits[i])
    ensures var text := host + ['/'] + digits;
            && Trim(text) == text && IndexOf(text, '/') == |host|
            && Trim(text[..|host|]) == host && text[|host| + 1..] == digits
  {
    var text := host + ['/'] + digits;
    assert text[0] == host[0] && text[|text| - 1] == digits[|digits| - 1];
    TrimTight(text);
    assert text[|host|] == '/' && text[..|host|] == host;
    FirstIndex(text, '/', |host|);
    TrimTight(host);
  }

  /** An address alone is a block of one. */
  lemma AddressAlone(inet: Inet, a: u32)
    requires inet.Lawful() && Plain(inet)
    ensures CidrOf(inet, inet.format(a).value) == Some((a, 32))
    ensures ParseCidr(inet, inet.format(a).value) == Some((inet.format(a).value, 32))
  {
    TrimTight(inet.format(a).value);
  }

  lemma {:induction false} DigitsThenJunk(digits: string, junk: string)
    requires (forall i :: 0 <= i < |digits| ==> IsDigit(digits[i])) && (junk == [] || !IsDigit(junk[0]))
    ensures Digits(digits + junk) == digits
  {
    if digits == [] {
      assert digits + junk == junk;
    } else {
      DigitsThenJunk(digits[1..], junk);
      assert (digits + junk)[1..] == digits[1..] + junk;
    }
  }

  lemma {:induction false} FrontSpace(space: string, s: string)
    requires (forall i :: 0 <= i < |space| ==> IsSpace(space[i])) && s != [] && !IsSpace(s[0])
    ensures TrimFront(space + s) == s
  {
    if space == [] {
      assert space + s == s;
    } else {
      FrontSpace(space[1..], s);
      assert (space + s)[1..] == space[1..] + s;
    }
  }

  /** `std::stoi` reads a number behind space and a sign and ignores what follows it; a number that does not fit an
      `int` is an error. */
  lemma StoiReads(space: string, sign: string, n: nat, junk: string)
    requires (forall i :: 0 <= i < |space| ==> IsSpace(space[i])) && sign in {"", "+", "-"}
    requires junk == [] || !IsDigit(junk[0])
    ensures var v: int := if sign == "-" then -(n as int) else n;
            Stoi(space + (sign + (PrintNat(n) + junk)))
            == if -0x8000_0000 <= v <= 0x7FFF_FFFF then Some(v) else None
  {
    var body := PrintNat(n) + junk;
    assert IsDigit(body[0]);
    SignedText(sign, body);
    FrontSpace(space, sign + body);
    DigitsThenJunk(PrintNat(n), junk);
    DecimalOfPrint(n);
    StoiOfParts(space + (sign + body), sign, body, PrintNat(n), n);
  }

  lemma StoiOfParts(s: string, sign: string, body: string, digits: string, n: nat)
    requires TrimFront(s) == sign + body && sign in {"", "+", "-"} && body != [] && IsDigit(body[0])
    requires Digits(body) == digits != [] && Decimal(digits) == n
    ensures var v: int := if sign == "-" then -(n as int) else n;
            Stoi(s) == if -0x8000_0000 <= v <= 0x7FFF_FFFF then Some(v) else None
  {
    SignedText(sign, body);
  }

  lemma SignedText(sign: string, body: string)
    requires sign in {"", "+", "-"} && body != [] && IsDigit(body[0])
    ensures var t := sign + body;
            && t != [] && !IsSpace(t[0])
            && (t[0] == '+' || t[0] == '-' <==> sign != "") && (t[0] == '-' <==> sign == "-")
            && (if sign == "" then t else t[1..]) == body
  {
    if sign == "" {
      assert sign + body == body;
    } else {
      assert (sign + body)[1..] == body;
    }
  }

  /** Text that starts with neither a sign nor a digit, behind space, is no number. */
  lemma StoiRefuses(space: string, s: string)
    requires forall i :: 0 <= i < |space| ==> IsSpace(space[i])
    requires s != [] && !IsSpace(s[0]) && !IsDigit(s[0]) && s[0] != '+' && s[0] != '-'
    ensures Stoi(space + s) == None
  {
    FrontSpace(space, s);
  }

  /** A prefix length above 32 is refused. */
  lemma CidrOutOfRange(inet: Inet, a: u32, p: nat)
    requires inet.Lawful() && Plain(inet) && p > 32
    ensures CidrOf(inet, inet.format(a).value + ['/'] + PrintNat(p)) == None
  {
    CidrShape(inet.format(a).value, PrintNat(p));
    StoiReads([], "", p, []);
    assert [] + ("" + (PrintNat(p) + [])) == PrintNat(p);
  }
}
