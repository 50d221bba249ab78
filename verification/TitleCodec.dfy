/** The three-field title carried in the SDP `i=` line (section 5.4 of RFC 8866): purpose, mute flag, text. */
module TitleCodec {
  import opened Wrappers
  import opened TrackInfo

  // The two library calls the codec relies on

  /** `strings.SplitAfter(s, " ")`: every piece but the last ends with its space. */
  function SplitAfter(s: string): (r: seq<string>)
    ensures |r| >= 1
  {
    if s == "" then [""]
    else if s[0] == ' ' then [" "] + SplitAfter(s[1..])
    else var r := SplitAfter(s[1..]); [[s[0]] + r[0]] + r[1..]
  }

  /** `unicode.IsSpace`. */
  predicate IsSpace(c: char) {
    c in " \t\n\r" || c == '\U{0B}' || c == '\U{0C}' || c == '\U{85}' || c == '\U{A0}' || c == '\U{1680}'
    || '\U{2000}' <= c <= '\U{200A}' || c in "\U{2028}\U{2029}\U{202F}\U{205F}\U{3000}"
  }

  function TrimLeft(s: string): string {
    if s != "" && IsSpace(s[0]) then TrimLeft(s[1..]) else s
  }

  function TrimRight(s: string): string {
    if s != "" && IsSpace(s[|s|-1]) then TrimRight(s[..|s|-1]) else s
  }

  /** `strings.TrimSpace`. */
  function TrimSpace(s: string): string {
    TrimRight(TrimLeft(s))
  }

  function Digits(n: nat): string {
    if n < 10 then ["0123456789"[n]] else Digits(n / 10) + ["0123456789"[n % 10]]
  }

  /** `fmt.Sprintf("%d", n)`. */
  function Decimal(n: int): string {
    if n < 0 then "-" + Digits(-n) else Digits(n)
  }

  // The codec

  function Build(info: Info): string {
    Decimal(info.purpose) + " " + (if info.mute then "1" else "2") + " " + info.text
  }

  /** The record after parsing `title` into it: untouched unless the title has exactly three pieces. */
  function Parsed(title: string, info: Info): Info {
    var pieces := SplitAfter(title);
    if |pieces| == 3 then
      info.(purpose := if TrimSpace(pieces[0]) == "2" then PURPOSE_MAIN else PURPOSE_GUEST,
            mute := TrimSpace(pieces[1]) == "1",
            text := pieces[2])
    else info
  }

  method ParseSdpInformation(title: string, info: TrackSdpInfo)
    modifies info
    ensures info.Value() == Parsed(title, old(info.Value()))
    ensures (forall a, b, c :: !ThreeFields(title, a, b, c)) ==> info.Value() == old(info.Value())
    ensures forall a, b, c :: ThreeFields(title, a, b, c) ==>
      && info.purpose == (if TrimSpace(a) == "2" then 2 else 1)
      && info.mute == (TrimSpace(b) == "1")
      && info.text == c
    ensures info.id == old(info.id) && info.sessionId == old(info.sessionId)
    ensures info.ingressMid == old(info.ingressMid) && info.ingressTrackId == old(info.ingressTrackId)
    ensures info.egressMid == old(info.egressMid) && info.egressTrackId == old(info.egressTrackId)
  {
    ThreePiecesIff(title);
    var pieces := SplitAfter(title);
    if |pieces| == 3 {
      var purpose := TrimSpace(pieces[0]);
      if purpose == "1" {
        info.purpose := PURPOSE_GUEST;
      } else if purpose == "2" {
        info.purpose := PURPOSE_MAIN;
      } else {
        info.purpose := PURPOSE_GUEST;
      }
      var mute := TrimSpace(pieces[1]);
      if mute == "1" {
        info.mute := true;
      } else {
        info.mute := false;
      }
      info.text := pieces[2];
    }
  }

  // Properties

  /** `title` consists of `a`, `b` and `c`, separated by its only two spaces. */
  ghost predicate ThreeFields(title: string, a: string, b: string, c: string) {
    title == a + " " + b + " " + c && ' ' !in a && ' ' !in b && ' ' !in c
  }

  lemma FieldsArePieces(a: string, b: string, c: string)
    requires ' ' !in a && ' ' !in b && ' ' !in c
    ensures SplitAfter(a + " " + b + " " + c) == [a + " ", b + " ", c]
  {
    assert a + " " + b + " " + c == a + " " + (b + " " + c);
    SplitAtSpace(a, b + " " + c);
    SplitAtSpace(b, c);
    SplitShape(c);
  }

  lemma PiecesAreFields(title: string) returns (a: string, b: string, c: string)
    requires |SplitAfter(title)| == 3
    ensures ThreeFields(title, a, b, c)
  {
    var p, q := SplitAfter(title)[0], SplitAfter(title)[1];
    c := SplitAfter(title)[2];
    SplitCutsAtSpaces(title, 0);
    SplitCutsAtSpaces(title, 1);
    SplitShape(title);
    SplitJoins(title);
    a, b := p[..|p|-1], q[..|q|-1];
    assert p == a + " " && q == b + " ";
    assert SplitAfter(title) == [p, q, c];
    ConcatThree(p, q, c);
    assert p + (q + c) == a + " " + b + " " + c;
  }

  lemma ConcatThree(p: string, q: string, r: string)
    ensures Concat([p, q, r]) == p + (q + r)
  {
    assert [p, q, r][1..] == [q, r] && [q, r][1..] == [r] && [r][1..] == [];
    assert Concat([r]) == r + Concat([]) == r;
  }

  /** A title splits into three pieces exactly when it has two spaces. Blanks around a field, its own space included,
      are trimmed alike. */
  lemma ThreePiecesIff(title: string)
    ensures |SplitAfter(title)| == 3 <==> exists a, b, c :: ThreeFields(title, a, b, c)
    ensures forall a, b, c :: ThreeFields(title, a, b, c) ==>
      && SplitAfter(title) == [a + " ", b + " ", c]
      && TrimSpace(a + " ") == TrimSpace(a) && TrimSpace(b + " ") == TrimSpace(b)
  {
    forall a, b, c | ThreeFields(title, a, b, c)
      ensures SplitAfter(title) == [a + " ", b + " ", c]
      ensures TrimSpace(a + " ") == TrimSpace(a) && TrimSpace(b + " ") == TrimSpace(b)
    {
      FieldsArePieces(a, b, c);
      TrimIgnoresBlank(a);
      TrimIgnoresBlank(b);
    }
    if |SplitAfter(title)| == 3 {
      var a, b, c := PiecesAreFields(title);
    }
  }

  // Trimming

  ghost predicate Blank(s: string) {
    forall c :: c in s ==> IsSpace(c)
  }

  /** `core` is `s` without the blanks around it. */
  ghost predicate TrimmedTo(s: string, core: string) {
    && (exists l, r :: s == l + core + r && Blank(l) && Blank(r))
    && (core != "" ==> !IsSpace(core[0]) && !IsSpace(core[|core|-1]))
  }

  lemma {:induction false} TrimLeftCuts(s: string) returns (l: string)
    ensures s == l + TrimLeft(s) && Blank(l) && (TrimLeft(s) != "" ==> !IsSpace(TrimLeft(s)[0]))
  {
    l := "";
    if s != "" && IsSpace(s[0]) {
      var l' := TrimLeftCuts(s[1..]);
      l := [s[0]] + l';
    }
  }

  lemma {:induction false} TrimRightCuts(s: string) returns (r: string)
    ensures s == TrimRight(s) + r && Blank(r) && (TrimRight(s) != "" ==> !IsSpace(TrimRight(s)[|TrimRight(s)|-1]))
  {
    r := "";
    if s != "" && IsSpace(s[|s|-1]) {
      var r' := TrimRightCuts(s[..|s|-1]);
      r := r' + [s[|s|-1]];
    }
  }

  /** Trimming takes the blanks around and nothing else. */
  lemma TrimSpaceTrims(s: string)
    ensures TrimmedTo(s, TrimSpace(s))
  {
    var l := TrimLeftCuts(s);
    var r := TrimRightCuts(TrimLeft(s));
    assert s == l + TrimSpace(s) + r;
    if TrimSpace(s) != "" {
      assert TrimSpace(s)[0] == TrimLeft(s)[0];
    }
  }

  /** There is only one way to trim. */
  lemma TrimmedOnce(s: string, core: string, core': string)
    requires TrimmedTo(s, core) && TrimmedTo(s, core')
    ensures core == core'
  {
    var l, r :| s == l + core + r && Blank(l) && Blank(r);
    var l', r' :| s == l' + core' + r' && Blank(l') && Blank(r');
    if core == "" {
      BlankCore(l + r, l', core', r');
    } else if core' == "" {
      BlankCore(l' + r', l, core, r);
    } else {
      SameStart(s, l, core, r, l', core', r');
      SameStart(s, l', core', r', l, core, r);
      SameEnd(s, l, core, r, l', core', r');
      SameEnd(s, l', core', r', l, core, r);
      assert core == s[|l|..|s|-|r|] && core' == s[|l'|..|s|-|r'|];
    }
  }

  lemma BlankCore(s: string, l: string, core: string, r: string)
    requires s == l + core + r && Blank(s) && (core != "" ==> !IsSpace(core[0]))
    ensures core == ""
  {
    Contains(l, core, r);
  }

  lemma Contains(l: string, core: string, r: string)
    ensures forall c :: c in core ==> c in l + core + r
  {
  }

  lemma SameStart(s: string, l: string, core: string, r: string, l': string, core': string, r': string)
    requires s == l + core + r && s == l' + core' + r' && Blank(l) && core' != "" && !IsSpace(core'[0])
    ensures |l| <= |l'|
  {
    assert s[|l'|] == core'[0];
    assert forall i :: 0 <= i < |l| ==> s[i] == l[i];
  }

  lemma SameEnd(s: string, l: string, core: string, r: string, l': string, core': string, r': string)
    requires s == l + core + r && s == l' + core' + r' && Blank(r) && core' != "" && !IsSpace(core'[|core'|-1])
    ensures |r| <= |r'|
  {
    assert s[|s|-|r'|-1] == core'[|core'|-1];
    assert forall i :: |s| - |r| <= i < |s| ==> s[i] == r[i-(|s|-|r|)];
  }

  lemma BlankAtTheEnd(s: string, core: string)
    requires TrimmedTo(s, core)
    ensures TrimmedTo(s + " ", core)
  {
    var l, r :| s == l + core + r && Blank(l) && Blank(r);
    assert IsSpace(' ');
    assert s + " " == l + core + (r + " ") && Blank(r + " ");
  }

  lemma TrimIgnoresBlank(s: string)
    ensures TrimSpace(s + " ") == TrimSpace(s)
  {
    TrimSpaceTrims(s);
    TrimSpaceTrims(s + " ");
    BlankAtTheEnd(s, TrimSpace(s));
    TrimmedOnce(s + " ", TrimSpace(s), TrimSpace(s + " "));
  }

  // Numbers

  ghost function DigitValue(c: char): int {
    c as int - '0' as int
  }

  /** The number a string of digits denotes. */
  ghost function Denoted(s: string): int {
    if s == "" then 0 else 10 * Denoted(s[..|s|-1]) + DigitValue(s[|s|-1])
  }

  lemma {:induction false} DigitsDenote(n: nat)
    ensures Denoted(Digits(n)) == n
  {
    var last := ["0123456789"[n % 10]];
    assert DigitValue(last[0]) == n % 10;
    if n < 10 {
      assert Digits(n) == last && last[..0] == "";
    } else {
      DigitsDenote(n / 10);
      assert (Digits(n / 10) + last)[..|Digits(n / 10)|] == Digits(n / 10);
    }
  }

  /** The purpose in decimal, `digits` with a sign if need be, then 1 for muted or 2, then the text. */
  ghost predicate IsTitle(title: string, info: Info, digits: string) {
    && title == (if info.purpose < 0 then "-" else "") + digits + " " + (if info.mute then "1" else "2") + " " + info.text
    && Denoted(digits) == (if info.purpose < 0 then -info.purpose else info.purpose)
    && |digits| >= 1 && (digits[0] == '0' ==> |digits| == 1) && forall c :: c in digits ==> '0' <= c <= '9'
  }

  lemma {:induction false} NoLeadingZero(n: nat)
    ensures |Digits(n)| >= 1 && (Digits(n)[0] == '0' ==> n == 0)
  {
    if n >= 10 {
      NoLeadingZero(n / 10);
    }
  }

  /** The title on the wire, for every record. */
  lemma TitleOnTheWire(info: Info)
    ensures exists digits :: IsTitle(Build(info), info, digits)
  {
    var n := if info.purpose < 0 then -info.purpose else info.purpose;
    DigitsDenote(n);
    DigitsArePlain(n);
    NoLeadingZero(n);
    assert IsTitle(Build(info), info, Digits(n));
  }

  // The codec's laws

  /** Records that survive a trip through a title. */
  ghost predicate Clean(info: Info) {
    && info.purpose in {PURPOSE_GUEST, PURPOSE_MAIN}
    && ' ' !in info.text
  }

  ghost predicate SameMeta(a: Info, b: Info) {
    a.purpose == b.purpose && a.mute == b.mute && a.text == b.text
  }

  lemma {:induction false} SplitAtSpace(a: string, rest: string)
    requires ' ' !in a
    ensures SplitAfter(a + " " + rest) == [a + " "] + SplitAfter(rest)
  {
    var s := a + " " + rest;
    if a == "" {
      assert s == " " + rest && s[1..] == rest;
    } else {
      assert s[1..] == a[1..] + " " + rest;
      SplitAtSpace(a[1..], rest);
      var tail := [a[1..] + " "] + SplitAfter(rest);
      assert SplitAfter(s) == [[s[0]] + tail[0]] + tail[1..];
      assert [a[0]] + (a[1..] + " ") == a + " ";
    }
  }

  /** The last piece never holds a space, and there is one piece exactly when there is no space. */
  lemma {:induction false} SplitShape(s: string)
    ensures ' ' !in SplitAfter(s)[|SplitAfter(s)|-1]
    ensures |SplitAfter(s)| == 1 <==> ' ' !in s
    ensures ' ' !in s ==> SplitAfter(s) == [s]
  {
    if s != "" {
      SplitShape(s[1..]);
      assert s == [s[0]] + s[1..];
    }
  }

  /** A piece that ends at its first space. */
  ghost predicate EndsAtSpace(piece: string) {
    piece != "" && piece[|piece|-1] == ' ' && ' ' !in piece[..|piece|-1]
  }

  /** Splitting loses nothing. */
  lemma {:induction false} SplitJoins(s: string)
    ensures Concat(SplitAfter(s)) == s
  {
    if s != "" {
      SplitJoins(s[1..]);
      var r := SplitAfter(s[1..]);
      if s[0] == ' ' {
        assert ([" "] + r)[1..] == r && s == " " + s[1..];
      } else {
        assert ([[s[0]] + r[0]] + r[1..])[1..] == r[1..];
        assert s == [s[0]] + s[1..];
      }
    }
  }

  /** Every piece but the last ends at its only space. */
  lemma {:induction false} SplitCutsAtSpaces(s: string, i: nat)
    requires i < |SplitAfter(s)| - 1
    ensures EndsAtSpace(SplitAfter(s)[i])
  {
    var r := SplitAfter(s[1..]);
    if s[0] == ' ' {
      if i > 0 {
        SplitCutsAtSpaces(s[1..], i - 1);
        assert SplitAfter(s)[i] == r[i-1];
      }
    } else {
      SplitCutsAtSpaces(s[1..], i);
      if i == 0 {
        var head := [s[0]] + r[0];
        assert head[..|head|-1] == [s[0]] + r[0][..|r[0]|-1];
      } else {
        assert SplitAfter(s)[i] == r[i];
      }
    }
  }

  ghost function Concat(pieces: seq<string>): string {
    if pieces == [] then "" else pieces[0] + Concat(pieces[1..])
  }

  lemma {:induction false} DigitsArePlain(n: nat)
    ensures |Digits(n)| >= 1 && forall c :: c in Digits(n) ==> '0' <= c <= '9'
    ensures n >= 10 ==> |Digits(n)| >= 2
  {
    if n >= 10 {
      DigitsArePlain(n / 10);
    }
  }

  lemma DecimalIsPlain(n: int)
    ensures Decimal(n) != "" && forall c :: c in Decimal(n) ==> !IsSpace(c)
    ensures Decimal(n) == "1" <==> n == 1
    ensures Decimal(n) == "2" <==> n == 2
  {
    DigitsArePlain(if n < 0 then -n else n);
  }

  lemma TrimTrailingSpace(s: string)
    requires s != "" && forall c :: c in s ==> !IsSpace(c)
    ensures TrimSpace(s + " ") == s
  {
    assert (s + " ")[..|s|] == s;
    assert !IsSpace(s[0]) && !IsSpace(s[|s|-1]);
    assert TrimRight(s) == s;
  }

  /** A built title splits into its two number fields followed by the pieces of the text. */
  lemma PiecesOfBuild(info: Info)
    ensures SplitAfter(Build(info)) ==
            [Decimal(info.purpose) + " ", (if info.mute then "1" else "2") + " "] + SplitAfter(info.text)
  {
    var p, m := Decimal(info.purpose), if info.mute then "1" else "2";
    DecimalIsPlain(info.purpose);
    assert ' ' !in p by { assert IsSpace(' '); }
    var rest := m + " " + info.text;
    assert Build(info) == p + " " + rest;
    SplitAtSpace(p, rest);
    SplitAtSpace(m, info.text);
  }

  lemma TrimFields(info: Info)
    ensures TrimSpace(Decimal(info.purpose) + " ") == Decimal(info.purpose)
    ensures TrimSpace("1" + " ") == "1" && TrimSpace("2" + " ") == "2"
  {
    DecimalIsPlain(info.purpose);
    TrimTrailingSpace(Decimal(info.purpose));
    TrimTrailingSpace("1");
    TrimTrailingSpace("2");
  }

  /** What the parser makes of a built title, for every record and every target. */
  lemma ParseOfBuild(info: Info, target: Info)
    ensures Parsed(Build(info), target) ==
      if ' ' in info.text then target
      else target.(purpose := if info.purpose == PURPOSE_MAIN then PURPOSE_MAIN else PURPOSE_GUEST,
                   mute := info.mute, text := info.text)
  {
    PiecesOfBuild(info);
    SplitShape(info.text);
    var pieces := SplitAfter(Build(info));
    if ' ' !in info.text {
      TrimFields(info);
      DecimalIsPlain(info.purpose);
      assert |pieces| == 3 && pieces[0] == Decimal(info.purpose) + " " && pieces[2] == info.text;
    } else {
      assert |pieces| > 3;
    }
  }

  /** The title codec round-trips into a fresh record exactly on clean records. */
  lemma RoundTripIffClean(info: Info, id: InfoId, sessionId: SessionId)
    ensures SameMeta(Parsed(Build(info), NewInfo(id, sessionId)), info) <==> Clean(info)
  {
    ParseOfBuild(info, NewInfo(id, sessionId));
  }

  /** Every record made by the constructor or the parser, from any title whatever, is clean. */
  lemma ParserClosure(title: string, info: Info)
    requires Clean(info)
    ensures Clean(Parsed(title, info)) && Clean(NewInfo(info.id, info.sessionId))
  {
    SplitShape(title);
  }
}
