/**
 * The regular-expression interpreter of spoken commands in
 * src/components/VoiceCommand.tsx (`parseVoiceCommand`).
 *
 * The text is lower-cased with every '.' and ',' deleted; then four
 * independent matches run over it: a leading item number, and the words after
 * "estado", "observação" and "recomendação". Each regular expression is
 * written out as a scanner with the JavaScript matching order: the leftmost
 * start position wins, and at a start position the greedy `\s+` gives back
 * spaces one at a time until the rest of the pattern matches.
 */
module VoiceCommand {
  import opened Text

  /** The result object: `rawText` always, the other fields when found. */
  datatype VoiceCommandResult = VoiceCommandResult(
    numero: Option<string>,
    estado: Option<string>,
    observacao: Option<string>,
    recomendacao: Option<string>,
    rawText: string)

  /** `text.toLowerCase().replace(/[.,]/g, '')`: the punctuation is deleted,
      not replaced by a space. */
  function Normalize(text: string): (t: string)
    ensures |t| <= |text|
    ensures forall i :: 0 <= i < |t| ==> t[i] != '.' && t[i] != ','
  {
    if text == [] then []
    else
      var c := LowerChar(text[0]);
      if c == '.' || c == ',' then Normalize(text[1..]) else [c] + Normalize(text[1..])
  }

  /** `capitalizeFirstLetter`: "" stays "", otherwise the first character is
      upper-cased and the rest is kept. */
  function Capitalize(s: string): string {
    if s == [] then s else UpperChar(s[0]) + s[1..]
  }

  /** The three keywords, each with its accent-tolerant spelling. */
  datatype Keyword = Estado | Observacao | Recomendacao

  function KeywordLength(kw: Keyword): nat {
    match kw
    case Estado => 6
    case Observacao => 10
    case Recomendacao => 12
  }

  /** `estado`, `observa[çc][ãa]o` or `recomenda[çc][ãa]o` matches at `i`. */
  predicate KeywordAt(s: string, kw: Keyword, i: int) {
    match kw
    case Estado => OccursAt(s, "estado", i)
    case Observacao =>
      && OccursAt(s, "observa", i) && i + 10 <= |s|
      && (s[i + 7] == 'ç' || s[i + 7] == 'c') && (s[i + 8] == 'ã' || s[i + 8] == 'a') && s[i + 9] == 'o'
    case Recomendacao =>
      && OccursAt(s, "recomenda", i) && i + 12 <= |s|
      && (s[i + 9] == 'ç' || s[i + 9] == 'c') && (s[i + 10] == 'ã' || s[i + 10] == 'a') && s[i + 11] == 'o'
  }

  /** `[\w\sà-ú]`: ASCII word characters, white space, U+00E0 to U+00FA. */
  predicate InCaptureClass(c: char) {
    IsWordChar(c) || IsSpace(c) || ('\U{00E0}' <= c <= '\U{00FA}')
  }

  /** Length of the run of white space starting at `i`. */
  function SpaceRun(s: string, i: nat): (n: nat)
    requires i <= |s|
    decreases |s| - i
    ensures i + n <= |s|
    ensures forall j :: i <= j < i + n ==> IsSpace(s[j])
    ensures i + n == |s| || !IsSpace(s[i + n])
  {
    if i < |s| && IsSpace(s[i]) then 1 + SpaceRun(s, i + 1) else 0
  }

  /** Length of the run of capture-class characters starting at `i`. */
  function ClassRun(s: string, i: nat): (n: nat)
    requires i <= |s|
    decreases |s| - i
    ensures i + n <= |s|
    ensures forall j :: i <= j < i + n ==> InCaptureClass(s[j])
    ensures i + n == |s| || !InCaptureClass(s[i + n])
  {
    if i < |s| && InCaptureClass(s[i]) then 1 + ClassRun(s, i + 1) else 0
  }

  /** No line terminator in `s`: `.` matches every character of it. */
  predicate SingleLine(s: string) {
    forall i :: 0 <= i < |s| ==> !IsLineTerminator(s[i])
  }

  /** The two capture shapes: `kw\s+([\w\sà-ú]+)` and `kw\s+(.+)$`. */
  datatype Pattern = ClassAfter(kw: Keyword) | LineAfter(kw: Keyword)

  /** The group matched when the first `w` white-space characters after the
      keyword (which ends at `q`) are taken by `\s+`, if the rest matches. */
  function GroupWith(s: string, pat: Pattern, q: nat, w: nat): Option<string>
    requires q + w <= |s|
  {
    match pat
    case ClassAfter(_) =>
      var n := ClassRun(s, q + w);
      if n > 0 then Some(s[q + w..q + w + n]) else None
    case LineAfter(_) =>
      if |s| > q + w && SingleLine(s[q + w..]) then Some(s[q + w..]) else None
  }

  /** The greedy `\s+` backtracking: `w` from the whole run down to 1. */
  function Backtrack(s: string, pat: Pattern, q: nat, w: nat): (r: Option<string>)
    requires q + w <= |s|
    decreases w
  {
    if w == 0 then None
    else match GroupWith(s, pat, q, w)
      case Some(g) => Some(g)
      case None => Backtrack(s, pat, q, w - 1)
  }

  /** The group of a match that starts at `p`, if one does. */
  function CaptureAt(s: string, pat: Pattern, p: nat): Option<string>
    requires p <= |s|
  {
    if !KeywordAt(s, pat.kw, p) then None else AfterKeyword(s, pat, p + KeywordLength(pat.kw))
  }

  /** The rest of the pattern, `\s+` and the group, matched from `q`. */
  function AfterKeyword(s: string, pat: Pattern, q: nat): Option<string>
    requires q <= |s|
  {
    Backtrack(s, pat, q, SpaceRun(s, q))
  }

  /** Where the leftmost match of the pattern at or after `from` starts. */
  function FirstMatchAt(s: string, pat: Pattern, from: nat): (r: Option<nat>)
    requires from <= |s|
    decreases |s| - from
    ensures r.Some? ==> from <= r.value <= |s| && CaptureAt(s, pat, r.value).Some?
    ensures r.Some? ==> forall p :: from <= p < r.value ==> CaptureAt(s, pat, p).None?
    ensures r.None? ==> forall p :: from <= p <= |s| ==> CaptureAt(s, pat, p).None?
  {
    if CaptureAt(s, pat, from).Some? then Some(from)
    else if from == |s| then None
    else FirstMatchAt(s, pat, from + 1)
  }

  /** `s.match(pattern)?.[1]`: the group of the leftmost match. */
  function Group(s: string, pat: Pattern): Option<string> {
    match FirstMatchAt(s, pat, 0)
    case None => None
    case Some(p) => CaptureAt(s, pat, p)
  }

  /** `s.split(/a|b/)[0]`: everything before the first place either keyword
      matches, or all of `s`. */
  function BeforeFirst(s: string, a: Keyword, b: Keyword, from: nat): (r: nat)
    requires from <= |s|
    decreases |s| - from
    ensures from <= r <= |s|
    ensures forall j :: from <= j < r ==> !KeywordAt(s, a, j) && !KeywordAt(s, b, j)
    ensures r == |s| || KeywordAt(s, a, r) || KeywordAt(s, b, r)
  {
    if from == |s| || KeywordAt(s, a, from) || KeywordAt(s, b, from) then from
    else BeforeFirst(s, a, b, from + 1)
  }

  function Cut(s: string, a: Keyword, b: Keyword): string {
    s[..BeforeFirst(s, a, b, 0)]
  }

  /** `^(?:\d+|número\s+\d+|item\s+\d+)` followed by `.match(/\d+/)`: the
      alternatives are tried in order at position 0 only. In the two worded
      forms `\s+` takes the whole white-space run (giving a space back would
      put a space where `\d+` needs a digit), and the first digit run of the
      match is the one after the spaces, as the words hold no digit. */
  function LeadingNumber(t: string): Option<string> {
    if DigitRun(t, 0) > 0 then Some(t[..DigitRun(t, 0)])
    else if StartsWith(t, "número") && SpaceRun(t, 6) > 0 && DigitRun(t, 6 + SpaceRun(t, 6)) > 0 then
      var d := 6 + SpaceRun(t, 6);
      Some(t[d..d + DigitRun(t, d)])
    else if StartsWith(t, "item") && SpaceRun(t, 4) > 0 && DigitRun(t, 4 + SpaceRun(t, 4)) > 0 then
      var d := 4 + SpaceRun(t, 4);
      Some(t[d..d + DigitRun(t, d)])
    else
      None
  }

  /** The estado: the capture after "estado", cut before any observation or
      recommendation keyword, trimmed and capitalised. */
  function EstadoOf(t: string): Option<string> {
    match Group(t, ClassAfter(Estado))
    case None => None
    case Some(g) => Some(Capitalize(Trim(Cut(g, Observacao, Recomendacao))))
  }

  /** The observation: the capture after "observação", cut before "estado"
      or a recommendation keyword, trimmed and capitalised. */
  function ObservacaoOf(t: string): Option<string> {
    match Group(t, ClassAfter(Observacao))
    case None => None
    case Some(g) => Some(Capitalize(Trim(Cut(g, Estado, Recomendacao))))
  }

  /** The recommendation: the rest of the text after "recomendação",
      trimmed and capitalised. */
  function RecomendacaoOf(t: string): Option<string> {
    match Group(t, LineAfter(Recomendacao))
    case None => None
    case Some(g) => Some(Capitalize(Trim(g)))
  }

  /** `parseVoiceCommand(text)`. */
  function ParseVoiceCommand(text: string): VoiceCommandResult {
    var t := Normalize(text);
    VoiceCommandResult(LeadingNumber(t), EstadoOf(t), ObservacaoOf(t), RecomendacaoOf(t), text)
  }

  /** Deleting punctuation works piece by piece. */
  lemma {:induction false} NormalizeAppend(a: string, b: string)
    ensures Normalize(a + b) == Normalize(a) + Normalize(b)
  {
    if a != [] {
      assert (a + b)[1..] == a[1..] + b;
      NormalizeAppend(a[1..], b);
    } else {
      assert a + b == b;
    }
  }

  /** Text that is already lower case and has no '.' or ',' is its own
      normal form. */
  lemma {:induction false} NormalizeNormal(s: string)
    requires forall i :: 0 <= i < |s| ==> LowerChar(s[i]) == s[i] && s[i] != '.' && s[i] != ','
    ensures Normalize(s) == s
  {
    if s != [] {
      NormalizeNormal(s[1..]);
    }
  }

  /** `capitalizeFirstLetter` returns "" exactly for "", otherwise changes
      only the first character (into one or two), and applying it twice is
      the same as once. */
  lemma CapitalizeProperties(s: string)
    ensures Capitalize(s) == [] <==> s == []
    ensures s != [] ==> exists u :: 1 <= |u| <= 2 && Capitalize(s) == u + s[1..]
    ensures Capitalize(Capitalize(s)) == Capitalize(s)
  {
    if s != [] {
      var u := UpperChar(s[0]);
      assert Capitalize(s) == u + s[1..];
      var c := Capitalize(s);
      assert c[0] == u[0];
      assert UpperChar(u[0]) == [u[0]];
      assert c[1..] == u[1..] + s[1..];
    }
  }

  /** The backtracking of `kw\s+([\w\sà-ú]+)` at a keyword: with the white
      space after the keyword ending at `q + W`, the group is the capture-class
      run from `q + W` when it is not empty; otherwise, when at least two
      spaces were taken, `\s+` gives one back and the group is that one
      space; otherwise there is no match here. */
  lemma ClassCaptureShape(s: string, kw: Keyword, q: nat)
    requires q <= |s|
    ensures var w := SpaceRun(s, q);
      AfterKeyword(s, ClassAfter(kw), q) ==
        if w == 0 then None
        else if ClassRun(s, q + w) > 0 then Some(s[q + w..q + w + ClassRun(s, q + w)])
        else if w >= 2 then Some([s[q + w - 1]])
        else None
  {
    var pat := ClassAfter(kw);
    var w := SpaceRun(s, q);
    assert AfterKeyword(s, pat, q) == Backtrack(s, pat, q, w);
    if w > 0 && ClassRun(s, q + w) == 0 {
      assert GroupWith(s, pat, q, w) == None;
      assert Backtrack(s, pat, q, w) == Backtrack(s, pat, q, w - 1);
      if w >= 2 {
        SpaceGivenBack(s, kw, q, w);
      }
    }
  }

  /** When the capture-class run after `w` spaces is empty, `\s+` giving
      back the last space lets the group be that one space. */
  lemma SpaceGivenBack(s: string, kw: Keyword, q: nat, w: nat)
    requires w >= 2 && q + w <= |s| && IsSpace(s[q + w - 1])
    requires q + w == |s| || !InCaptureClass(s[q + w])
    ensures Backtrack(s, ClassAfter(kw), q, w - 1) == Some([s[q + w - 1]])
  {
    assert ClassRun(s, q + w - 1) == 1;
    assert s[q + w - 1..q + w] == [s[q + w - 1]];
    assert GroupWith(s, ClassAfter(kw), q, w - 1) == Some([s[q + w - 1]]);
  }

  /** No choice of `w` at or below `w` can make `.+$` reach the end past a
      line terminator at `k`. */
  lemma {:induction false} LineBacktrackFails(s: string, kw: Keyword, q: nat, w: nat, k: nat)
    requires q + w <= k < |s| && IsLineTerminator(s[k])
    ensures Backtrack(s, LineAfter(kw), q, w) == None
  {
    if w > 0 {
      assert s[q + w..][k - q - w] == s[k];
      LineBacktrackFails(s, kw, q, w - 1, k);
    }
  }

  /** The backtracking of `kw\s+(.+)$` at a keyword, with the white space
      after the keyword ending at `q + W`: the group is the rest of the text
      when that rest is not empty and holds no line terminator, and there is
      no match here when it holds one. When the white space runs to the very
      end, `\s+` gives one space back and, if there were two or more and that
      one is not a line terminator, the group is that space. */
  lemma LineCaptureShape(s: string, kw: Keyword, q: nat)
    requires q <= |s|
    ensures var w := SpaceRun(s, q);
      && (w == 0 ==> AfterKeyword(s, LineAfter(kw), q) == None)
      && (w > 0 && q + w < |s| && SingleLine(s[q + w..]) ==> AfterKeyword(s, LineAfter(kw), q) == Some(s[q + w..]))
      && (!SingleLine(s[q + w..]) ==> AfterKeyword(s, LineAfter(kw), q) == None)
      && (q + w == |s| && w == 1 ==> AfterKeyword(s, LineAfter(kw), q) == None)
      && (q + w == |s| && w >= 2 && IsLineTerminator(s[q + w - 1]) ==> AfterKeyword(s, LineAfter(kw), q) == None)
      && (q + w == |s| && w >= 2 && !IsLineTerminator(s[q + w - 1]) ==>
            AfterKeyword(s, LineAfter(kw), q) == Some([s[q + w - 1]]))
  {
    var w := SpaceRun(s, q);
    if !SingleLine(s[q + w..]) {
      var k :| 0 <= k < |s[q + w..]| && IsLineTerminator(s[q + w..][k]);
      LineBacktrackFails(s, kw, q, w, q + w + k);
    } else if q + w == |s| && w >= 2 {
      LineBacktrackAtEnd(s, kw, q, w);
    }
  }

  /** When the white space runs to the end, the last of it is all `.+` can
      take. */
  lemma LineBacktrackAtEnd(s: string, kw: Keyword, q: nat, w: nat)
    requires q + w == |s| && w >= 2
    ensures Backtrack(s, LineAfter(kw), q, w) ==
      if IsLineTerminator(s[q + w - 1]) then None else Some([s[q + w - 1]])
  {
    var pat := LineAfter(kw);
    assert GroupWith(s, pat, q, w) == None;
    assert s[q + w - 1..] == [s[q + w - 1]];
    if IsLineTerminator(s[q + w - 1]) {
      LineBacktrackFails(s, kw, q, w - 1, q + w - 1);
    } else {
      assert SingleLine(s[q + w - 1..]);
      assert GroupWith(s, pat, q, w - 1) == Some([s[q + w - 1]]);
    }
  }

  /** No match of the keyword anywhere in `s`. */
  predicate Free(s: string, kw: Keyword) {
    forall j :: 0 <= j < |s| ==> !KeywordAt(s, kw, j)
  }

  /** A keyword found inside a slice is found in the whole string. */
  lemma KeywordInSlice(s: string, a: nat, b: nat, kw: Keyword, j: nat)
    requires a <= b <= |s| && KeywordAt(s[a..b], kw, j)
    ensures KeywordAt(s, kw, a + j)
  {
    var k := s[a..b];
    assert OccursAt(s, k, a);
    match kw
    case Estado => OccursInside(s, k, a, "estado", j);
    case Observacao => OccursInside(s, k, a, "observa", j);
    case Recomendacao => OccursInside(s, k, a, "recomenda", j);
  }

  lemma FreeSlice(s: string, a: nat, b: nat, kw: Keyword)
    requires a <= b <= |s| && Free(s, kw)
    ensures Free(s[a..b], kw)
  {
    forall j | 0 <= j ensures !KeywordAt(s[a..b], kw, j) {
      if KeywordAt(s[a..b], kw, j) {
        KeywordInSlice(s, a, b, kw, j);
      }
    }
  }

  /** The piece before the first stop keyword holds no stop keyword. */
  lemma CutFree(g: string, a: Keyword, b: Keyword)
    ensures Free(Cut(g, a, b), a) && Free(Cut(g, a, b), b)
  {
    var n := BeforeFirst(g, a, b, 0);
    forall j | 0 <= j ensures !KeywordAt(Cut(g, a, b), a, j) && !KeywordAt(Cut(g, a, b), b, j) {
      if KeywordAt(Cut(g, a, b), a, j) {
        KeywordInSlice(g, 0, n, a, j);
      }
      if KeywordAt(Cut(g, a, b), b, j) {
        KeywordInSlice(g, 0, n, b, j);
      }
    }
  }

  /** `trim` keeps a string free of a keyword. */
  lemma TrimFree(c: string, kw: Keyword)
    requires Free(c, kw)
    ensures Free(Trim(c), kw)
  {
    var t := TrimStart(c);
    var lo := |c| - |t|;
    var e := TrimEnd(t);
    TrimStartShape(c);
    TrimEndShape(t);
    assert e == c[lo..lo + |e|];
    FreeSlice(c, lo, lo + |e|, kw);
  }

  /** The estado never runs into the observation or the recommendation: it is
      a capitalised trimmed text in which neither keyword occurs. */
  lemma EstadoStopsAtKeywords(t: string)
    ensures EstadoOf(t).Some? ==>
      exists e :: EstadoOf(t) == Some(Capitalize(e)) && IsTrimmed(e) && Free(e, Observacao) && Free(e, Recomendacao)
  {
    if Group(t, ClassAfter(Estado)).Some? {
      var g := Group(t, ClassAfter(Estado)).value;
      var e := Trim(Cut(g, Observacao, Recomendacao));
      CutFree(g, Observacao, Recomendacao);
      TrimFree(Cut(g, Observacao, Recomendacao), Observacao);
      TrimFree(Cut(g, Observacao, Recomendacao), Recomendacao);
      TrimProperties(Cut(g, Observacao, Recomendacao));
      assert EstadoOf(t) == Some(Capitalize(e));
    }
  }

  /** The observation likewise never holds "estado" or a recommendation
      keyword. */
  lemma ObservacaoStopsAtKeywords(t: string)
    ensures ObservacaoOf(t).Some? ==>
      exists e :: ObservacaoOf(t) == Some(Capitalize(e)) && IsTrimmed(e) && Free(e, Estado) && Free(e, Recomendacao)
  {
    if Group(t, ClassAfter(Observacao)).Some? {
      var g := Group(t, ClassAfter(Observacao)).value;
      var e := Trim(Cut(g, Estado, Recomendacao));
      CutFree(g, Estado, Recomendacao);
      TrimFree(Cut(g, Estado, Recomendacao), Estado);
      TrimFree(Cut(g, Estado, Recomendacao), Recomendacao);
      TrimProperties(Cut(g, Estado, Recomendacao));
      assert ObservacaoOf(t) == Some(Capitalize(e));
    }
  }

  /** Any item number is a non-empty run of digits, read at the very start
      of the text or after a leading "número" or "item". */
  lemma LeadingNumberShape(t: string)
    ensures LeadingNumber(t).Some? ==>
      var n := LeadingNumber(t).value;
      && |n| >= 1 && (forall j :: 0 <= j < |n| ==> IsDigit(n[j]))
      && (StartsWith(t, n) || StartsWith(t, "número") || StartsWith(t, "item"))
  {
    if DigitRun(t, 0) > 0 {
      assert StartsWith(t, t[..DigitRun(t, 0)]);
    }
  }

  /** A digit run at the very start wins over the worded forms. */
  lemma LeadingDigitsWin(t: string)
    requires |t| > 0 && IsDigit(t[0])
    ensures LeadingNumber(t) == Some(t[..DigitRun(t, 0)])
  {
    assert DigitRun(t, 0) > 0;
  }

  /** `t` is the word `w`, white space, and then a digit at `d`: the shape
      `número\s+\d+` or `item\s+\d+` accepts at the start of the text. */
  predicate WordedNumberAt(t: string, w: string, d: int) {
    && StartsWith(t, w) && |w| < d < |t|
    && (forall k :: |w| <= k < d ==> IsSpace(t[k]))
    && IsDigit(t[d])
  }

  /** The digits of a worded number start right after the whole white-space
      run that follows the word. */
  lemma WordedNumberStart(t: string, w: string, d: int)
    requires WordedNumberAt(t, w, d)
    ensures d == |w| + SpaceRun(t, |w|)
  {
    assert forall k :: |w| <= k < d ==> IsSpace(t[k]);
    assert !IsSpace(t[d]);
  }

  /** With no digit at the start, "número" or "item", white space and a
      digit give the number: the whole digit run after the white space. */
  lemma LeadingWordedNumber(t: string, w: string, d: int)
    requires w == "número" || w == "item"
    requires WordedNumberAt(t, w, d)
    ensures LeadingNumber(t) == Some(t[d..d + DigitRun(t, d)])
  {
    if w == "número" {
      LeadingNumeroWord(t, d);
    } else {
      LeadingItemWord(t, d);
    }
  }

  /** The "número" case of LeadingWordedNumber. */
  lemma LeadingNumeroWord(t: string, d: int)
    requires WordedNumberAt(t, "número", d)
    ensures LeadingNumber(t) == Some(t[d..d + DigitRun(t, d)])
  {
    WordedNumberStart(t, "número", d);
    assert t[0] == t[..6][0] == 'n';
    assert DigitRun(t, 0) == 0;
    assert d == 6 + SpaceRun(t, 6) && SpaceRun(t, 6) > 0 && DigitRun(t, d) > 0;
  }

  /** The "item" case of LeadingWordedNumber. */
  lemma LeadingItemWord(t: string, d: int)
    requires WordedNumberAt(t, "item", d)
    ensures LeadingNumber(t) == Some(t[d..d + DigitRun(t, d)])
  {
    WordedNumberStart(t, "item", d);
    assert t[0] == t[..4][0] == 'i';
    assert DigitRun(t, 0) == 0;
    assert !StartsWith(t, "número") by {
      if |t| >= 6 {
        assert t[..6][0] == 'i';
      }
    }
    assert d == 4 + SpaceRun(t, 4) && SpaceRun(t, 4) > 0 && DigitRun(t, d) > 0;
  }

  /** There is no number exactly when the text starts with no digit and
      neither "número" nor "item" is followed by white space and a digit. */
  lemma LeadingNumberNone(t: string)
    ensures LeadingNumber(t).None? <==>
      && (t == [] || !IsDigit(t[0]))
      && (forall d :: !WordedNumberAt(t, "número", d))
      && (forall d :: !WordedNumberAt(t, "item", d))
  {
    if LeadingNumber(t).None? {
      forall d | WordedNumberAt(t, "número", d) ensures false {
        LeadingWordedNumber(t, "número", d);
      }
      forall d | WordedNumberAt(t, "item", d) ensures false {
        LeadingWordedNumber(t, "item", d);
      }
    } else if DigitRun(t, 0) == 0 {
      if StartsWith(t, "número") && SpaceRun(t, 6) > 0 && DigitRun(t, 6 + SpaceRun(t, 6)) > 0 {
        assert WordedNumberAt(t, "número", 6 + SpaceRun(t, 6));
      } else {
        assert WordedNumberAt(t, "item", 4 + SpaceRun(t, 4));
      }
    }
  }

  /** Text in which no keyword occurs and which does not start with a number
      gives back only the raw text. */
  lemma NoKeywordsOnlyRawText(text: string)
    requires LeadingNumber(Normalize(text)).None?
    requires Free(Normalize(text), Estado) && Free(Normalize(text), Observacao)
    requires Free(Normalize(text), Recomendacao)
    ensures ParseVoiceCommand(text) == VoiceCommandResult(None, None, None, None, text)
  {
    var t := Normalize(text);
    assert FirstMatchAt(t, ClassAfter(Estado), 0).None?;
    assert FirstMatchAt(t, ClassAfter(Observacao), 0).None?;
    assert FirstMatchAt(t, LineAfter(Recomendacao), 0).None?;
  }

  /** The first two characters every spelling of the keyword starts with. */
  function Lead(kw: Keyword): (char, char) {
    match kw
    case Estado => ('e', 's')
    case Observacao => ('o', 'b')
    case Recomendacao => ('r', 'e')
  }

  /** `a` is never directly followed by `b` in `s`. */
  predicate NoPair(s: string, a: char, b: char) {
    forall j :: 0 <= j < |s| - 1 ==> !(s[j] == a && s[j + 1] == b)
  }

  /** A keyword cannot occur where its first two letters do not. */
  lemma FreeIfNoPair(s: string, kw: Keyword)
    requires NoPair(s, Lead(kw).0, Lead(kw).1)
    ensures Free(s, kw)
  {
    forall j | 0 <= j < |s| ensures !KeywordAt(s, kw, j) {
      KeywordLead(s, kw, j);
    }
  }

  /** Every spelling of a keyword starts with its two lead letters. */
  lemma KeywordLead(s: string, kw: Keyword, j: nat)
    ensures KeywordAt(s, kw, j) ==> j + 1 < |s| && s[j] == Lead(kw).0 && s[j + 1] == Lead(kw).1
  {
    if KeywordAt(s, kw, j) {
      match kw
      case Estado =>
        assert s[j..j + 6][0] == s[j] && s[j..j + 6][1] == s[j + 1];
      case Observacao =>
        assert s[j..j + 7][0] == s[j] && s[j..j + 7][1] == s[j + 1];
      case Recomendacao =>
        assert s[j..j + 9][0] == s[j] && s[j..j + 9][1] == s[j + 1];
    }
  }

  /** With no keyword in the text, no pattern after that keyword matches. */
  lemma GroupOfFree(s: string, pat: Pattern)
    requires Free(s, pat.kw)
    ensures Group(s, pat) == None
  {
    assert FirstMatchAt(s, pat, 0).None?;
  }

  /** The group of the first keyword occurrence, when the rest of the pattern
      matches after it. */
  lemma GroupAtFirst(s: string, pat: Pattern, p: nat)
    requires p <= |s| && KeywordAt(s, pat.kw, p)
    requires forall j :: 0 <= j < p ==> !KeywordAt(s, pat.kw, j)
    requires AfterKeyword(s, pat, p + KeywordLength(pat.kw)).Some?
    ensures Group(s, pat) == AfterKeyword(s, pat, p + KeywordLength(pat.kw))
  {
    FirstMatchReaches(s, pat, 0, p);
  }

  lemma {:induction false} FirstMatchReaches(s: string, pat: Pattern, from: nat, p: nat)
    requires from <= p <= |s| && CaptureAt(s, pat, p).Some?
    requires forall j :: from <= j < p ==> !KeywordAt(s, pat.kw, j)
    ensures FirstMatchAt(s, pat, from) == Some(p)
    decreases p - from
  {
    if from < p {
      FirstMatchReaches(s, pat, from + 1, p);
    }
  }

  /** The line pattern's group, when the first occurrence of its keyword is
      followed by white space and then a non-empty single-line rest. */
  lemma LineGroupAfterFirst(s: string, kw: Keyword, p: nat, c: nat)
    requires p <= |s| && KeywordAt(s, kw, p)
    requires forall j :: 0 <= j < p ==> !KeywordAt(s, kw, j)
    requires c == p + KeywordLength(kw) + SpaceRun(s, p + KeywordLength(kw))
    requires SpaceRun(s, p + KeywordLength(kw)) > 0 && c < |s| && SingleLine(s[c..])
    ensures Group(s, LineAfter(kw)) == Some(s[c..])
  {
    var q := p + KeywordLength(kw);
    LineCaptureShape(s, kw, q);
    assert AfterKeyword(s, LineAfter(kw), q) == Some(s[c..]);
    GroupAtFirst(s, LineAfter(kw), p);
  }

  /** The recommendation is everything after the first "recomendação" and
      the white space after it, to the end of the text, trimmed and
      capitalised, provided that text is not empty and holds no line
      terminator. */
  lemma RecomendacaoAfterFirst(t: string, p: nat, c: nat)
    requires p <= |t| && KeywordAt(t, Recomendacao, p)
    requires forall j :: 0 <= j < p ==> !KeywordAt(t, Recomendacao, j)
    requires c == p + 12 + SpaceRun(t, p + 12)
    requires SpaceRun(t, p + 12) > 0 && c < |t| && SingleLine(t[c..])
    ensures RecomendacaoOf(t) == Some(Capitalize(Trim(t[c..])))
  {
    LineGroupAfterFirst(t, Recomendacao, p, c);
  }

  /** `GroupAtFirst` with the capture at the first keyword named. */
  lemma GroupIsCaptureAtFirst(s: string, pat: Pattern, p: nat, g: string)
    requires p <= |s| && KeywordAt(s, pat.kw, p)
    requires forall j :: 0 <= j < p ==> !KeywordAt(s, pat.kw, j)
    requires AfterKeyword(s, pat, p + KeywordLength(pat.kw)) == Some(g)
    ensures Group(s, pat) == Some(g)
  {
    GroupAtFirst(s, pat, p);
  }

  /** After a keyword, white space and then a non-empty run of the capture
      class: the capture there is that whole run. */
  lemma ClassCaptureRun(s: string, kw: Keyword, q: nat)
    requires q <= |s| && SpaceRun(s, q) > 0 && ClassRun(s, q + SpaceRun(s, q)) > 0
    ensures var c := q + SpaceRun(s, q);
      AfterKeyword(s, ClassAfter(kw), q) == Some(s[c..c + ClassRun(s, c)])
  {
    ClassCaptureShape(s, kw, q);
  }

  /** The state is the capture-class run after the first "estado" and its
      white space, cut before "observação" or "recomendação", trimmed and
      capitalised. */
  lemma EstadoAfterFirst(t: string, p: nat, c: nat)
    requires p <= |t| && KeywordAt(t, Estado, p)
    requires forall j :: 0 <= j < p ==> !KeywordAt(t, Estado, j)
    requires c == p + 6 + SpaceRun(t, p + 6)
    requires SpaceRun(t, p + 6) > 0 && c <= |t| && ClassRun(t, c) > 0
    ensures EstadoOf(t) == Some(Capitalize(Trim(Cut(t[c..c + ClassRun(t, c)], Observacao, Recomendacao))))
  {
    ClassCaptureRun(t, Estado, p + 6);
    GroupIsCaptureAtFirst(t, ClassAfter(Estado), p, t[c..c + ClassRun(t, c)]);
  }

  /** The observation is the capture-class run after the first "observação"
      and its white space, cut before "estado" or "recomendação", trimmed
      and capitalised. */
  lemma ObservacaoAfterFirst(t: string, p: nat, c: nat)
    requires p <= |t| && KeywordAt(t, Observacao, p)
    requires forall j :: 0 <= j < p ==> !KeywordAt(t, Observacao, j)
    requires c == p + 10 + SpaceRun(t, p + 10)
    requires SpaceRun(t, p + 10) > 0 && c <= |t| && ClassRun(t, c) > 0
    ensures ObservacaoOf(t) == Some(Capitalize(Trim(Cut(t[c..c + ClassRun(t, c)], Estado, Recomendacao))))
  {
    ClassCaptureRun(t, Observacao, p + 10);
    GroupIsCaptureAtFirst(t, ClassAfter(Observacao), p, t[c..c + ClassRun(t, c)]);
  }

  /** A state whose captured text runs straight into "observação" or
      "recomendação" is present but empty: `split(...)[0]` is the empty
      string, so the field is set to "" rather than left untouched. */
  lemma EstadoPresentButEmpty(t: string, g: string)
    requires Group(t, ClassAfter(Estado)) == Some(g)
    requires KeywordAt(g, Observacao, 0) || KeywordAt(g, Recomendacao, 0)
    ensures EstadoOf(t) == Some("")
  {
    CutAtStart(g, Observacao, Recomendacao);
  }

  /** An observation whose captured text runs straight into "estado" or
      "recomendação" is present but empty. */
  lemma ObservacaoPresentButEmpty(t: string, g: string)
    requires Group(t, ClassAfter(Observacao)) == Some(g)
    requires KeywordAt(g, Estado, 0) || KeywordAt(g, Recomendacao, 0)
    ensures ObservacaoOf(t) == Some("")
  {
    CutAtStart(g, Estado, Recomendacao);
  }

  /** Text that starts with one of the two stop keywords is cut to nothing,
      and trimming and capitalising nothing leaves nothing. */
  lemma CutAtStart(g: string, a: Keyword, b: Keyword)
    requires KeywordAt(g, a, 0) || KeywordAt(g, b, 0)
    ensures Cut(g, a, b) == "" && Capitalize(Trim(Cut(g, a, b))) == ""
  {
    assert BeforeFirst(g, a, b, 0) == 0;
    assert Trim("") == "";
  }
}
