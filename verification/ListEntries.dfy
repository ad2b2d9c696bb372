/** What loading a list file reads, over the positions of its text. */
module ListEntries {
  import opened Bytes
  import opened InnerFrame
  import opened Ipv4
  import opened NetConfig
  import opened TextLists

  // ---------------------------------------------------------------- lines

  function Join(lines: seq<string>): string {
    if lines == [] then [] else if |lines| == 1 then lines[0] else lines[0] + ['\n'] + Join(lines[1..])
  }

  /** A text without its final newline, if it has one. */
  function Unterminated(s: string): string { if s != [] && s[|s| - 1] == '\n' then s[..|s| - 1] else s }

  lemma JoinCons(line: string, lines: seq<string>)
    ensures Join([line] + lines) == if lines == [] then line else line + ['\n'] + Join(lines)
  {
    assert ([line] + lines)[1..] == lines;
  }

  lemma UnterminatedCons(line: string, rest: string)
    ensures Unterminated(line + ['\n'] + rest) == if rest == [] then line else line + ['\n'] + Unterminated(rest)
  {
    var s := line + ['\n'] + rest;
    if rest == [] {
      assert s == line + ['\n'] && s[..|s| - 1] == line;
    } else if rest[|rest| - 1] == '\n' {
      assert s[..|s| - 1] == line + ['\n'] + rest[..|rest| - 1];
    }
  }

  lemma SplitLine(s: string, i: nat)
    requires i < |s| && s[i] == '\n'
    ensures s == s[..i] + ['\n'] + s[i + 1..]
  {
  }

  /** Every line is read, the last one whether or not a newline ends it. */
  lemma {:induction false} LinesJoin(s: string)
    ensures Join(Lines(s)) == Unterminated(s)
    ensures Lines(s) == [] <==> s == []
    decreases |s|
  {
    if s != [] {
      var i := IndexOf(s, '\n');
      if i < |s| {
        SplitLine(s, i);
        LinesJoin(s[i + 1..]);
        JoinCons(s[..i], Lines(s[i + 1..]));
        UnterminatedCons(s[..i], s[i + 1..]);
      } else {
        assert s[|s| - 1] in s;
      }
    }
  }

  // ---------------------------------------------------------------- cores

  predicate Blank(s: string) { forall k :: 0 <= k < |s| ==> IsSpace(s[k]) }

  /** No `c` from `a` to `b`. */
  predicate Without(s: string, a: int, b: int, c: char)
    requires 0 <= a && b <= |s|
  {
    forall m :: a <= m < b ==> s[m] != c
  }

  /** The interval from `i` to `j` is what a line has to say: it starts and ends with text, it holds neither a newline
      nor a comment sign, only space lies between the beginning of its line and it, and only space between it and a
      comment or the end of its line. */
  predicate IsCore(s: string, i: nat, j: nat) {
    && i < j <= |s| && !IsSpace(s[i]) && !IsSpace(s[j - 1])
    && Without(s, i, j, '\n') && Without(s, i, j, '#')
    && (forall k :: 0 <= k < i && Without(s, k, i, '\n') ==> IsSpace(s[k]))
    && (forall k :: j < k <= |s| && Without(s, j, k, '\n') && Without(s, j, k, '#') ==> IsSpace(s[k - 1]))
  }

  // ---------------------------------------------------------------- trimming

  lemma {:induction false} TrimFrontSpan(s: string) returns (p: nat)
    ensures p <= |s| && Blank(s[..p]) && TrimFront(s) == s[p..]
  {
    p := 0;
    if s != [] && IsSpace(s[0]) {
      var q := TrimFrontSpan(s[1..]);
      p := q + 1;
      assert s[..p] == [s[0]] + s[1..][..q];
    }
  }

  lemma {:induction false} TrimBackSpan(s: string) returns (q: nat)
    ensures q <= |s| && Blank(s[q..]) && TrimBack(s) == s[..q]
  {
    q := |s|;
    if s != [] && IsSpace(s[|s| - 1]) {
      var n := |s| - 1;
      q := TrimBackSpan(s[..n]);
      assert s[q..] == s[..n][q..] + [s[n]] && s[..n][..q] == s[..q];
    }
  }

  /** Trimming cuts an interval out of the text, with only space outside. */
  lemma TrimSpan(s: string) returns (p: nat, q: nat)
    ensures p <= q <= |s| && Blank(s[..p]) && Blank(s[q..]) && Trim(s) == s[p..q]
  {
    p := TrimFrontSpan(s);
    var r := TrimBackSpan(s[p..]);
    q := p + r;
    assert s[q..] == s[p..][r..] && s[p..q] == s[p..][..r];
  }

  lemma {:induction false} TrimFrontBlank(a: string, m: string)
    requires Blank(a) && (m == [] || !IsSpace(m[0]))
    ensures TrimFront(a + m) == m
  {
    if a == [] {
      assert a + m == m;
    } else {
      TrimFrontBlank(a[1..], m);
      assert (a + m)[1..] == a[1..] + m;
    }
  }

  /** Space in front makes no difference. */
  lemma TrimsSame(a: string, m: string)
    requires Blank(a) && (m == [] || !IsSpace(m[0]))
    ensures Trim(a + m) == Trim(m)
  {
    TrimFrontBlank(a, m);
    TrimFrontBlank([], m);
    assert [] + m == m;
  }

  lemma BlankHasNoSign(a: string)
    requires Blank(a)
    ensures '#' !in a
  {
  }

  /** A line's entry is the trimmed text before its first comment sign. */
  lemma EntryIsTrimmed(line: string)
    ensures var u := Trim(line[..IndexOf(line, '#')]); EntryOf(line) == if u == [] then None else Some(u)
  {
    var p, q := TrimSpan(line);
    TrimTight(line);
    EntryOfParts(line, line[..p], line[p..q], line[q..]);
  }

  lemma EntryOfParts(line: string, a: string, t: string, b: string)
    requires line == a + t + b && Blank(a) && Blank(b) && Trim(line) == t && Tight(t)
    ensures var u := Trim(line[..IndexOf(line, '#')]); EntryOf(line) == if u == [] then None else Some(u)
  {
    BlankHasNoSign(a);
    BlankHasNoSign(b);
    var c := IndexOf(t, '#');
    if c < |t| {
      assert line[|a| + c] == '#' && line[..|a| + c] == a + t[..c];
      FirstIndex(line, '#', |a| + c);
      TrimsSame(a, t[..c]);
      if c == 0 {
        assert t[..c] == [];
      }
    } else {
      assert '#' !in line;
      assert line[..IndexOf(line, '#')] == line;
    }
  }

  /** A line contributes nothing exactly when the text before its first comment sign is all space. */
  lemma NoEntryIff(line: string)
    ensures EntryOf(line).None? <==> Blank(line[..IndexOf(line, '#')])
  {
    var text := line[..IndexOf(line, '#')];
    EntryIsTrimmed(line);
    var p, q := TrimSpan(text);
    if Blank(text) {
      TrimFrontBlank(text, []);
      assert text + [] == text;
    }
  }

  // ---------------------------------------------------------------- one line

  /** The cores of one line: at most one, and it is the entry. */
  lemma LineCore(line: string) returns (i: nat, j: nat)
    requires '\n' !in line
    ensures EntryOf(line).Some? ==> IsCore(line, i, j) && EntryOf(line).value == line[i..j]
    ensures forall k, l :: IsCore(line, k, l) ==> EntryOf(line).Some? && k == i && l == j
  {
    EntryIsTrimmed(line);
    var c := IndexOf(line, '#');
    i, j := TrimSpan(line[..c]);
    TrimTight(line[..c]);
    assert line[..c][i..j] == line[i..j] && line[..c][..i] == line[..i] && line[..c][j..] == line[j..c];
    Spaces(line, 0, i);
    Spaces(line, j, c);
    OnlyCore(line, c, i, j);
  }

  /** An interval of tight text with only space around it is the only core of its line, if it is not empty. */
  lemma OnlyCore(line: string, c: nat, i: nat, j: nat)
    requires EndsText(line, c) && i <= j <= c && Tight(line[i..j])
    requires (forall k :: 0 <= k < i ==> IsSpace(line[k])) && (forall k :: j <= k < c ==> IsSpace(line[k]))
    ensures i < j ==> IsCore(line, i, j)
    ensures forall k, l :: IsCore(line, k, l) ==> i < j && k == i && l == j
  {
    if i < j {
      SpanIsCore(line, c, i, j);
    }
    forall k, l | IsCore(line, k, l) ensures i < j && k == i && l == j {
      CoreIsSpan(line, c, i, j, k, l);
    }
  }

  lemma Spaces(s: string, a: nat, b: nat)
    requires a <= b <= |s| && Blank(s[a..b])
    ensures forall k :: a <= k < b ==> IsSpace(s[k])
  {
    forall k | a <= k < b ensures IsSpace(s[k]) {
      assert s[a..b][k - a] == s[k];
    }
  }

  /** `c` is the first comment sign of the line, or its end. */
  predicate EndsText(line: string, c: nat) {
    c <= |line| && '\n' !in line && '#' !in line[..c] && (c < |line| ==> line[c] == '#')
  }

  lemma TextIsClear(line: string, c: nat)
    requires EndsText(line, c)
    ensures Without(line, 0, |line|, '\n') && Without(line, 0, c, '#')
  {
    forall m | 0 <= m < c ensures line[m] != '#' {
      assert line[..c][m] in line[..c];
    }
  }

  lemma SpanIsCore(line: string, c: nat, i: nat, j: nat)
    requires EndsText(line, c) && i < j <= c && Tight(line[i..j])
    requires (forall k :: 0 <= k < i ==> IsSpace(line[k])) && (forall k :: j <= k < c ==> IsSpace(line[k]))
    ensures IsCore(line, i, j)
  {
    TextIsClear(line, c);
    assert line[i..j][0] == line[i] && line[i..j][j - i - 1] == line[j - 1];
    forall k | j < k <= |line| && Without(line, j, k, '#') ensures IsSpace(line[k - 1]) {
      assert k <= c;
    }
  }

  lemma CoreIsSpan(line: string, c: nat, i: nat, j: nat, k: nat, l: nat)
    requires EndsText(line, c) && i <= j <= c && Tight(line[i..j]) && IsCore(line, k, l)
    requires (forall m :: 0 <= m < i ==> IsSpace(line[m])) && (forall m :: j <= m < c ==> IsSpace(line[m]))
    ensures i == k && j == l && i < j
  {
    TextIsClear(line, c);
    CoreBefore(line, c, k, l);
    assert i <= k && l <= j;
    assert line[i..j][0] == line[i] && line[i..j][j - i - 1] == line[j - 1];
  }

  /** A core of a line ends before the comment, and only space is around it. */
  lemma CoreBefore(line: string, c: nat, k: nat, l: nat)
    requires EndsText(line, c) && IsCore(line, k, l)
    ensures l <= c
    ensures (forall m :: 0 <= m < k ==> IsSpace(line[m])) && (forall m :: l <= m < c ==> IsSpace(line[m]))
  {
    TextIsClear(line, c);
    forall m | 0 <= m < k ensures IsSpace(line[m]) {
      assert Without(line, m, k, '\n');
    }
    forall m | l <= m < c ensures IsSpace(line[m]) {
      assert Without(line, l, m + 1, '\n') && Without(line, l, m + 1, '#');
    }
    assert !IsSpace('#');
    assert c < k ==> !(c < |line|);
  }

  // ---------------------------------------------------------------- the first line and the rest

  function Both(line: string, rest: string): string { line + ['\n'] + rest }

  lemma BothAt(line: string, rest: string)
    ensures var s := Both(line, rest);
            && |s| == |line| + 1 + |rest| && s[|line|] == '\n'
            && (forall k :: 0 <= k < |line| ==> s[k] == line[k])
            && (forall k :: 0 <= k < |rest| ==> s[|line| + 1 + k] == rest[k])
  {
  }

  lemma FirstWithout(line: string, rest: string, a: int, b: int, c: char)
    requires 0 <= a <= b <= |line|
    ensures b <= |Both(line, rest)| && (Without(Both(line, rest), a, b, c) <==> Without(line, a, b, c))
  {
    BothAt(line, rest);
  }

  lemma RestWithout(line: string, rest: string, a: int, b: int, c: char)
    requires 0 <= a <= b <= |rest|
    ensures var n := |line| + 1;
            b + n <= |Both(line, rest)| && (Without(Both(line, rest), a + n, b + n, c) <==> Without(rest, a, b, c))
  {
    BothAt(line, rest);
    var s, n := Both(line, rest), |line| + 1;
    if Without(rest, a, b, c) {
      forall m | a + n <= m < b + n ensures s[m] != c {
        assert rest[m - n] != c;
      }
    }
  }

  lemma FirstCore(line: string, rest: string, i: nat, j: nat)
    requires j <= |line|
    ensures IsCore(Both(line, rest), i, j) <==> IsCore(line, i, j)
  {
    if i < j {
      BothAt(line, rest);
      FirstWithout(line, rest, i, j, '\n');
      FirstWithout(line, rest, i, j, '#');
      FirstLeft(line, rest, i);
      FirstRight(line, rest, j);
    }
  }

  predicate LeftClear(s: string, i: nat)
    requires i <= |s|
  {
    forall k :: 0 <= k < i && Without(s, k, i, '\n') ==> IsSpace(s[k])
  }

  predicate RightClear(s: string, j: nat)
    requires j <= |s|
  {
    forall k :: j < k <= |s| && Without(s, j, k, '\n') && Without(s, j, k, '#') ==> IsSpace(s[k - 1])
  }

  lemma FirstLeft(line: string, rest: string, i: nat)
    requires i <= |line|
    ensures i <= |Both(line, rest)| && (LeftClear(Both(line, rest), i) <==> LeftClear(line, i))
  {
    BothAt(line, rest);
    forall k | 0 <= k < i ensures Without(Both(line, rest), k, i, '\n') <==> Without(line, k, i, '\n') {
      FirstWithout(line, rest, k, i, '\n');
    }
  }

  lemma FirstRight(line: string, rest: string, j: nat)
    requires j <= |line|
    ensures j <= |Both(line, rest)| && (RightClear(Both(line, rest), j) <==> RightClear(line, j))
  {
    BothAt(line, rest);
    var s := Both(line, rest);
    forall k | j < k <= |line|
      ensures Without(s, j, k, '\n') <==> Without(line, j, k, '\n')
      ensures Without(s, j, k, '#') <==> Without(line, j, k, '#')
    {
      FirstWithout(line, rest, j, k, '\n');
      FirstWithout(line, rest, j, k, '#');
    }
    if RightClear(line, j) {
      forall k | j < k <= |s| && Without(s, j, k, '\n') && Without(s, j, k, '#') ensures IsSpace(s[k - 1]) {
        assert k <= |line|;
      }
    }
  }

  lemma RestCore(line: string, rest: string, i: nat, j: nat)
    ensures IsCore(Both(line, rest), i + |line| + 1, j + |line| + 1) <==> IsCore(rest, i, j)
  {
    BothAt(line, rest);
    if i < j <= |rest| {
      var n := |line| + 1;
      assert Both(line, rest)[i + n] == rest[i] && Both(line, rest)[j - 1 + n] == rest[j - 1];
      RestWithout(line, rest, i, j, '\n');
      RestWithout(line, rest, i, j, '#');
      RestLeft(line, rest, i);
      RestRight(line, rest, j);
    }
  }

  lemma RestLeft(line: string, rest: string, i: nat)
    requires i <= |rest|
    ensures var s, n := Both(line, rest), |line| + 1;
            i + n <= |s| && (LeftClear(s, i + n) <==> LeftClear(rest, i))
  {
    BothAt(line, rest);
    var s, n := Both(line, rest), |line| + 1;
    if LeftClear(rest, i) {
      forall k | 0 <= k < i + n && Without(s, k, i + n, '\n') ensures IsSpace(s[k]) {
        assert k >= n;
        RestWithout(line, rest, k - n, i, '\n');
        assert s[n + (k - n)] == rest[k - n];
      }
    }
    if LeftClear(s, i + n) {
      forall k | 0 <= k < i && Without(rest, k, i, '\n') ensures IsSpace(rest[k]) {
        RestWithout(line, rest, k, i, '\n');
        assert s[n + k] == rest[k];
      }
    }
  }

  lemma RestRight(line: string, rest: string, j: nat)
    requires j <= |rest|
    ensures var s, n := Both(line, rest), |line| + 1;
            j + n <= |s| && (RightClear(s, j + n) <==> RightClear(rest, j))
  {
    BothAt(line, rest);
    if RightClear(rest, j) {
      ToBothRight(line, rest, j, j + |line| + 1);
    }
    if RightClear(Both(line, rest), j + |line| + 1) {
      FromBothRight(line, rest, j);
    }
  }

  lemma ToBothRight(line: string, rest: string, j: nat, b: nat)
    requires j <= |rest| && RightClear(rest, j) && b == j + |line| + 1 <= |Both(line, rest)|
    ensures RightClear(Both(line, rest), b)
  {
    var s, n := Both(line, rest), |line| + 1;
    forall k | b < k <= |s| && Without(s, b, k, '\n') && Without(s, b, k, '#') ensures IsSpace(s[k - 1]) {
      BothAt(line, rest);
      RestWithout(line, rest, j, k - n, '\n');
      RestWithout(line, rest, j, k - n, '#');
      assert s[n + (k - n - 1)] == rest[k - n - 1];
    }
  }

  lemma FromBothRight(line: string, rest: string, j: nat)
    requires j <= |rest| && j + |line| + 1 <= |Both(line, rest)| && RightClear(Both(line, rest), j + |line| + 1)
    ensures RightClear(rest, j)
  {
    var s, n := Both(line, rest), |line| + 1;
    forall k | j < k <= |rest| && Without(rest, j, k, '\n') && Without(rest, j, k, '#') ensures IsSpace(rest[k - 1]) {
      BothAt(line, rest);
      RestWithout(line, rest, j, k, '\n');
      RestWithout(line, rest, j, k, '#');
      assert s[n + (k - 1)] == rest[k - 1];
    }
  }

  /** No core reaches over a newline. */
  lemma CoreIsInOneLine(line: string, rest: string, i: nat, j: nat)
    requires IsCore(Both(line, rest), i, j)
    ensures j <= |line| || |line| < i
  {
    BothAt(line, rest);
    assert IsSpace('\n');
  }

  // ---------------------------------------------------------------- whole files

  lemma EntriesSnoc(lines: seq<string>, line: string)
    ensures Entries(lines + [line]) == Entries(lines) + EntryList(line)
  {
    assert (lines + [line])[..|lines|] == lines;
  }

  lemma {:induction false} EntriesCons(line: string, lines: seq<string>)
    ensures Entries([line] + lines) == EntryList(line) + Entries(lines)
    decreases |lines|
  {
    if lines == [] {
      EntriesSnoc([], line);
      assert [line] + lines == [] + [line];
    } else {
      var n := |lines| - 1;
      EntriesCons(line, lines[..n]);
      EntriesConsSnoc(line, lines[..n], lines[n]);
      assert lines[..n] + [lines[n]] == lines;
    }
  }

  lemma EntriesConsSnoc(line: string, lines: seq<string>, last: string)
    requires Entries([line] + lines) == EntryList(line) + Entries(lines)
    ensures Entries([line] + (lines + [last])) == EntryList(line) + Entries(lines + [last])
  {
    EntriesSnoc([line] + lines, last);
    EntriesSnoc(lines, last);
    Regroup([line], lines, [last]);
    Regroup(EntryList(line), Entries(lines), EntryList(last));
  }

  lemma Regroup(a: seq<string>, b: seq<string>, c: seq<string>)
    ensures a + (b + c) == (a + b) + c
  {
  }

  function EntryList(line: string): seq<string> { if EntryOf(line).Some? then [EntryOf(line).value] else [] }

  type Span = (nat, nat)

  /** Each span is a core of the text, and the entry beside it is what it cuts out. */
  ghost predicate Cuts(s: string, spans: seq<Span>, entries: seq<string>) {
    && |spans| == |entries|
    && forall k :: 0 <= k < |spans| ==> IsCore(s, spans[k].0, spans[k].1) && entries[k] == s[spans[k].0..spans[k].1]
  }

  predicate InOrder(spans: seq<Span>) { forall k, l :: 0 <= k < l < |spans| ==> spans[k].1 < spans[l].0 }

  /** No core is missing. */
  ghost predicate All(s: string, spans: seq<Span>) { forall i: nat, j: nat :: IsCore(s, i, j) ==> (i, j) in spans }

  ghost predicate Reads(s: string, spans: seq<Span>, entries: seq<string>) {
    Cuts(s, spans, entries) && InOrder(spans) && All(s, spans)
  }

  function Shift(spans: seq<Span>, n: nat): (r: seq<Span>)
    ensures |r| == |spans| && forall k :: 0 <= k < |r| ==> r[k] == (spans[k].0 + n, spans[k].1 + n)
  {
    seq(|spans|, k requires 0 <= k < |spans| => (spans[k].0 + n, spans[k].1 + n))
  }

  /** The spans of the first line, of which there is at most one. */
  lemma LineSpans(line: string) returns (spans: seq<Span>)
    requires '\n' !in line
    ensures Reads(line, spans, EntryList(line))
  {
    var i, j := LineCore(line);
    spans := if EntryOf(line).Some? then [(i, j)] else [];
    forall k: nat, l: nat | IsCore(line, k, l) ensures (k, l) in spans {
      assert spans[0] == (k, l);
    }
  }

  lemma CutsBoth(line: string, rest: string, here: seq<Span>, later: seq<Span>, a: seq<string>, b: seq<string>)
    requires Cuts(line, here, a) && Cuts(rest, later, b)
    ensures Cuts(Both(line, rest), here + Shift(later, |line| + 1), a + b)
  {
    var s, n := Both(line, rest), |line| + 1;
    var spans, entries := here + Shift(later, n), a + b;
    forall k | 0 <= k < |spans|
      ensures IsCore(s, spans[k].0, spans[k].1) && entries[k] == s[spans[k].0..spans[k].1]
    {
      if k < |here| {
        FirstCore(line, rest, here[k].0, here[k].1);
        assert s[here[k].0..here[k].1] == line[here[k].0..here[k].1];
      } else {
        var l := later[k - |here|];
        RestCore(line, rest, l.0, l.1);
        assert s[l.0 + n..l.1 + n] == rest[l.0..l.1];
      }
    }
  }

  lemma InOrderBoth(line: string, here: seq<Span>, later: seq<Span>)
    requires InOrder(here) && InOrder(later) && forall k :: 0 <= k < |here| ==> here[k].1 <= |line|
    ensures InOrder(here + Shift(later, |line| + 1))
  {
  }

  lemma AllBoth(line: string, rest: string, here: seq<Span>, later: seq<Span>)
    requires All(line, here) && All(rest, later)
    ensures All(Both(line, rest), here + Shift(later, |line| + 1))
  {
    forall i: nat, j: nat | IsCore(Both(line, rest), i, j) ensures (i, j) in here + Shift(later, |line| + 1) {
      OneOfBoth(line, rest, i, j);
      if j <= |line| && IsCore(line, i, j) {
        assert (i, j) in here;
      } else {
        assert (i - |line| - 1, j - |line| - 1) in later;
        ShiftedIn(later, |line| + 1, i, j);
      }
    }
  }

  lemma OneOfBoth(line: string, rest: string, i: nat, j: nat)
    requires IsCore(Both(line, rest), i, j)
    ensures || (j <= |line| && IsCore(line, i, j))
            || (|line| < i && |line| < j && IsCore(rest, i - |line| - 1, j - |line| - 1))
  {
    CoreIsInOneLine(line, rest, i, j);
    if j <= |line| {
      FirstCore(line, rest, i, j);
    } else {
      RestCore(line, rest, i - |line| - 1, j - |line| - 1);
    }
  }

  lemma ShiftedIn(spans: seq<Span>, n: nat, i: nat, j: nat)
    requires n <= i && n <= j && (i - n, j - n) in spans
    ensures (i, j) in Shift(spans, n)
  {
    var m :| 0 <= m < |spans| && spans[m] == (i - n, j - n);
    assert Shift(spans, n)[m] == (i, j);
  }

  lemma ReadsBoth(line: string, rest: string, here: seq<Span>, later: seq<Span>, a: seq<string>, b: seq<string>)
    requires Reads(line, here, a) && Reads(rest, later, b)
    ensures Reads(Both(line, rest), here + Shift(later, |line| + 1), a + b)
  {
    CutsBoth(line, rest, here, later, a, b);
    InOrderBoth(line, here, later);
    AllBoth(line, rest, here, later);
  }

  /** What loading a file reads: its entries are exactly the cores of its text, in the order of the text. So a line
      contributes nothing iff it has no core, that is, if the text before its first comment sign is all space. */
  lemma {:induction false} LoadReads(s: string) returns (spans: seq<Span>)
    ensures Reads(s, spans, Load(s))
    decreases |s|
  {
    if s == [] {
      spans := [];
    } else if '\n' !in s {
      spans := ReadsLine(s);
    } else {
      var n := IndexOf(s, '\n');
      var later := LoadReads(s[n + 1..]);
      LoadsMore(s, n);
      spans := ReadsMore(s, s[..n], s[n + 1..], later, Load(s[n + 1..]));
    }
  }

  lemma ReadsLine(s: string) returns (spans: seq<Span>)
    requires s != [] && '\n' !in s
    ensures Reads(s, spans, Load(s))
  {
    LoadsLine(s);
    spans := LineSpans(s);
  }

  lemma ReadsMore(s: string, line: string, rest: string, later: seq<Span>, loaded: seq<string>)
    returns (spans: seq<Span>)
    requires s == Both(line, rest) && '\n' !in line && Reads(rest, later, loaded)
    ensures Reads(s, spans, EntryList(line) + loaded)
  {
    var here := LineSpans(line);
    ReadsBoth(line, rest, here, later, EntryList(line), loaded);
    spans := here + Shift(later, |line| + 1);
  }

  /** A file with a first line of its own. */
  lemma LoadsMore(s: string, n: nat)
    requires n == IndexOf(s, '\n') < |s|
    ensures s == Both(s[..n], s[n + 1..]) && Load(s) == EntryList(s[..n]) + Load(s[n + 1..])
  {
    SplitLine(s, n);
    EntriesCons(s[..n], Lines(s[n + 1..]));
  }

  /** For instance, a file that consists of one entry without a newline, or with anything behind a comment sign. */
  lemma OneEntry(e: string, comment: string)
    requires Normal(e) && '\n' !in comment
    ensures Load(e) == [e] && Load(e + ['#'] + comment) == [e]
  {
    NormalIsEntry(e);
    LoadsLine(e);
    var s := e + ['#'] + comment;
    LoadsLine(s);
    EntryIsTrimmed(s);
    assert s[|e|] == '#' && s[..|e|] == e;
    FirstIndex(s, '#', |e|);
    TrimTight(e);
  }

  lemma LoadsLine(s: string)
    requires s != [] && '\n' !in s
    ensures Load(s) == EntryList(s)
  {
    assert Lines(s) == [s] + [];
    EntriesCons(s, []);
    assert EntryList(s) + [] == EntryList(s);
  }

  // ---------------------------------------------------------------- space in CIDR entries

  lemma {:induction false} TrimBackBlank(m: string, b: string)
    requires Blank(b) && (m == [] || !IsSpace(m[|m| - 1]))
    ensures TrimBack(m + b) == m
  {
    if b == [] {
      assert m + b == m;
    } else {
      var n := |b| - 1;
      TrimBackBlank(m, b[..n]);
      assert (m + b)[..|m + b| - 1] == m + b[..n];
    }
  }

  /** Text between spaces is what trimming gives. */
  lemma TrimUnique(a: string, m: string, b: string)
    requires Blank(a) && Blank(b) && m != [] && Tight(m)
    ensures Trim(a + (m + b)) == m
  {
    assert (m + b)[0] == m[0];
    TrimFrontBlank(a, m + b);
    TrimBackBlank(m, b);
  }

  /** Space around an entry and around its slash makes no difference. */
  lemma CidrWithSpaces(inet: Inet, a: u32, p: Prefix, s1: string, s2: string, s3: string, s4: string)
    requires inet.Lawful() && Plain(inet) && Blank(s1) && Blank(s2) && Blank(s3) && Blank(s4)
    ensures var host := inet.format(a).value;
            CidrOf(inet, s1 + ((host + s2) + (['/'] + (s3 + PrintNat(p))) + s4)) == Some((a, p))
  {
    var host := inet.format(a).value;
    EntryTrims(s1, host, s2, s3, PrintNat(p), s4);
    TrimUnique([], host, s2);
    assert [] + (host + s2) == host + s2;
    StoiReads(s3, "", p, []);
    assert s3 + ("" + (PrintNat(p) + [])) == s3 + PrintNat(p);
    BlankHasNoSlash(s2);
    CidrOfParts(inet, s1 + ((host + s2) + (['/'] + (s3 + PrintNat(p))) + s4), host + s2, s3 + PrintNat(p), host, a, p);
  }

  lemma BlankHasNoSlash(a: string)
    requires Blank(a)
    ensures '/' !in a
  {
  }

  lemma EntryTrims(s1: string, host: string, s2: string, s3: string, digits: string, s4: string)
    requires Blank(s1) && Blank(s4) && host != [] && Tight(host)
    requires digits != [] && forall i :: 0 <= i < |digits| ==> IsDigit(digits[i])
    ensures var m := (host + s2) + (['/'] + (s3 + digits)); Trim(s1 + (m + s4)) == m
  {
    var m := (host + s2) + (['/'] + (s3 + digits));
    assert m[0] == host[0] && m[|m| - 1] == digits[|digits| - 1];
    TrimUnique(s1, m, s4);
  }

  lemma CidrOfParts(inet: Inet, text: string, left: string, right: string, host: string, a: u32, p: Prefix)
    requires Trim(text) == left + (['/'] + right) && '/' !in left
    requires Trim(left) == host && Stoi(right) == Some(p) && inet.parse(host) == Some(a)
    ensures CidrOf(inet, text) == Some((a, p))
  {
    SlashAt(left, right);
  }

  lemma SlashAt(left: string, right: string)
    requires '/' !in left
    ensures var m := left + (['/'] + right);
            IndexOf(m, '/') == |left| && m[..|left|] == left && m[|left| + 1..] == right
  {
    var m := left + (['/'] + right);
    assert m[|left|] == '/' && m[..|left|] == left;
    FirstIndex(m, '/', |left|);
  }
}
