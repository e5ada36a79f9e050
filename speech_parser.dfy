/**
 * The keyword-based transcript interpreter of src/lib/parser.ts
 * (`parseSpeechText`).
 *
 * The text is lower-cased and each of `, ; . :` becomes a space; every field
 * is then extracted independently from that one string with `includes`,
 * `split` and a single regular expression. `ParseSpeechText` keeps the
 * source's step-by-step assignments and first-match loops; `Interpret` is the
 * same result as one expression, and the lemmas are stated about it.
 */
module SpeechParser {
  import opened Text

  /** The `Parsed` type: every field optional, `None` for "not mentioned". */
  datatype Parsed = Parsed(
    numero: Option<string>,
    estado: Option<string>,
    observacao: Option<string>,
    status: Option<string>,
    etiquetado: Option<string>,
    descricao: Option<string>,
    sala: Option<string>,
    recomendacao: Option<string>)

  const Empty: Parsed := Parsed(None, None, None, None, None, None, None, None)

  /** The keys of `estadoMap`, in insertion order (the order `Object.keys`
      returns), and the value of each. */
  const EstadoKeys: seq<string> := ["bom", "irreversivel", "irreversível", "recuperavel", "recuperável", "ocioso"]
  const EstadoValues: seq<string> := ["Bom", "Irreversível", "Irreversível", "Recuperável", "Recuperável", "Ocioso"]

  /** The keys of `statusMap`, in insertion order, and the value of each. */
  const StatusKeys: seq<string> := ["localizado", "migrado", "nao localizado", "não localizado"]
  const StatusValues: seq<string> := ["Localizado", "Migrado", "Não Localizado", "Não Localizado"]

  /** `obsKeywords`, in list order. */
  const ObsKeywords: seq<string> := ["observação", "observacoes", "observacao", "observações", "obs"]

  /** One character of `toLowerCase().replace(/[,;.:]/g, ' ')`. */
  function NormalChar(c: char): char {
    var l := LowerChar(c);
    if l == ',' || l == ';' || l == '.' || l == ':' then ' ' else l
  }

  /** `input.toLowerCase().replace(/[,;.:]/g, ' ')`. */
  function Normalize(input: string): (t: string)
    ensures |t| == |input|
    ensures forall i :: 0 <= i < |t| ==> t[i] == NormalChar(input[i])
  {
    seq(|input|, i requires 0 <= i < |input| => NormalChar(input[i]))
  }

  /** `/\b\d{3,}\b/` matches at `i`. A match at `i` needs a digit at `i` with
      no word character before it; the greedy `\d{3,}` then takes the whole
      digit run, and giving digits back cannot help, because the next
      character would be a digit after a digit, never a `\b`. So the match is
      the whole run, which needs three digits and no word character after. */
  predicate LongNumberAt(s: string, i: nat)
    requires i <= |s|
  {
    && (i == 0 || !IsWordChar(s[i - 1]))
    && DigitRun(s, i) >= 3
    && (i + DigitRun(s, i) == |s| || !IsWordChar(s[i + DigitRun(s, i)]))
  }

  /** Where the leftmost match of `/\b\d{3,}\b/` at or after `from` starts. */
  function FirstLongNumber(s: string, from: nat): (r: Option<nat>)
    requires from <= |s|
    decreases |s| - from
    ensures r.Some? ==> from <= r.value <= |s| && LongNumberAt(s, r.value)
    ensures r.Some? ==> forall j :: from <= j < r.value ==> !LongNumberAt(s, j)
    ensures r.None? ==> forall j :: from <= j <= |s| ==> !LongNumberAt(s, j)
  {
    if LongNumberAt(s, from) then Some(from)
    else if from == |s| then None
    else FirstLongNumber(s, from + 1)
  }

  /** The index of the first key, in list order, that occurs in `t`. */
  function FirstContained(t: string, keys: seq<string>): (r: Option<nat>)
    ensures r.Some? ==> r.value < |keys| && Contains(t, keys[r.value])
    ensures r.Some? ==> forall j :: 0 <= j < r.value ==> !Contains(t, keys[j])
    ensures r.None? ==> forall j :: 0 <= j < |keys| ==> !Contains(t, keys[j])
  {
    if keys == [] then None
    else if Contains(t, keys[0]) then Some(0)
    else match FirstContained(t, keys[1..])
      case None => None
      case Some(k) => Some(k + 1)
  }

  /** `num[0]` for `text.match(/\b\d{3,}\b/)`. */
  function NumeroOf(t: string): Option<string> {
    match FirstLongNumber(t, 0)
    case None => None
    case Some(i) => Some(t[i..i + DigitRun(t, i)])
  }

  /** The value of the first `estadoMap` key that occurs in the text. */
  function EstadoOf(t: string): (r: Option<string>)
    ensures r.Some? ==> |r.value| > 0
  {
    match FirstContained(t, EstadoKeys)
    case None => None
    case Some(k) => Some(EstadoValues[k])
  }

  /** The value of the first `statusMap` key that occurs in the text. */
  function StatusOf(t: string): Option<string> {
    match FirstContained(t, StatusKeys)
    case None => None
    case Some(k) => Some(StatusValues[k])
  }

  /** "Não" or "Sim" once "etiquetado" or "etiqueta" is mentioned. */
  function EtiquetadoOf(t: string): Option<string> {
    if Contains(t, "etiquetado") || Contains(t, "etiqueta") then
      Some(if Contains(t, "não") || Contains(t, "nao") then "Não" else "Sim")
    else
      None
  }

  /** `text.split(kw)[1].trim()` for the first observation keyword present. */
  function KeywordObservacao(t: string): Option<string> {
    match FirstContained(t, ObsKeywords)
    case None => None
    case Some(k) => Some(Trim(SecondPiece(t, ObsKeywords[k]).value))
  }

  /** The fallback: when no observation was found, or it is empty, and an
      estado was found, the trimmed text after the lower-cased estado value,
      provided that text exists and is not empty. */
  function WithFallback(t: string, obs: Option<string>, estado: Option<string>): Option<string>
    requires estado.Some? ==> |estado.value| > 0
  {
    if (obs.None? || obs == Some("")) && estado.Some? then
      var after := SecondPiece(t, Lower(estado.value));
      if after.Some? && after.value != "" then Some(Trim(after.value)) else obs
    else
      obs
  }

  /** `tail.replace(/recomend(a|e|ar)?/, '')` on a tail that starts with
      "recomend": the leftmost match is at the start, and the optional group
      takes one 'a' or 'e' ('a' is tried before "ar", so "ar" never wins). */
  function DropStem(tail: string): string
    requires StartsWith(tail, "recomend")
  {
    var rest := tail[8..];
    if rest != [] && (rest[0] == 'a' || rest[0] == 'e') then rest[1..] else rest
  }

  /** `text.slice(idx).replace(/recomend(a|e|ar)?/, '').trim()` where `idx`
      is the first "recomend". */
  function RecomendacaoOf(t: string): Option<string> {
    if Contains(t, "recomenda") || Contains(t, "recomend") then
      var idx := IndexOf(t, "recomend", 0);
      if idx.None? then None else Some(Trim(DropStem(t[idx.value..])))
    else
      None
  }

  /** The whole result of `parseSpeechText(input)`. */
  function Interpret(input: string): Parsed {
    var t := Normalize(input);
    var estado := EstadoOf(t);
    Parsed(
      NumeroOf(t),
      estado,
      WithFallback(t, KeywordObservacao(t), estado),
      StatusOf(t),
      EtiquetadoOf(t),
      None,
      None,
      RecomendacaoOf(t))
  }

  /** The source's `for (const k of keys) { if (text.includes(k)) { ...; break; } }`:
      the index of the key the loop stops at, if any. */
  method FirstMatch(text: string, keys: seq<string>) returns (found: Option<nat>)
    ensures found == FirstContained(text, keys)
  {
    var k := 0;
    while k < |keys|
      invariant 0 <= k <= |keys|
      invariant forall j :: 0 <= j < k ==> !Contains(text, keys[j])
    {
      if Contains(text, keys[k]) {
        found := Some(k);
        return;
      }
      k := k + 1;
    }
    found := None;
  }

  /** The `estadoMap` loop. */
  method ExtractEstado(text: string) returns (estado: Option<string>)
    ensures estado == EstadoOf(text)
  {
    estado := None;
    var k := FirstMatch(text, EstadoKeys);
    if k.Some? {
      estado := Some(EstadoValues[k.value]);
    }
  }

  /** The `statusMap` loop. */
  method ExtractStatus(text: string) returns (status: Option<string>)
    ensures status == StatusOf(text)
  {
    status := None;
    var k := FirstMatch(text, StatusKeys);
    if k.Some? {
      status := Some(StatusValues[k.value]);
    }
  }

  /** The `obsKeywords` loop followed by the fallback on the estado value. */
  method ExtractObservacao(text: string, estado: Option<string>) returns (observacao: Option<string>)
    requires estado.Some? ==> |estado.value| > 0
    ensures observacao == WithFallback(text, KeywordObservacao(text), estado)
  {
    observacao := None;
    var k := FirstMatch(text, ObsKeywords);
    if k.Some? {
      observacao := Some(Trim(SecondPiece(text, ObsKeywords[k.value]).value));
    }
    if (observacao.None? || observacao == Some("")) && estado.Some? {
      var afterEstado := SecondPiece(text, Lower(estado.value));
      if afterEstado.Some? && afterEstado.value != "" {
        observacao := Some(Trim(afterEstado.value));
      }
    }
  }

  /** `text.match(/\b\d{3,}\b/)`, kept when it matches. */
  method ExtractNumero(text: string) returns (numero: Option<string>)
    ensures numero == NumeroOf(text)
  {
    numero := None;
    var num := FirstLongNumber(text, 0);
    if num.Some? {
      numero := Some(text[num.value..num.value + DigitRun(text, num.value)]);
    }
  }

  /** The tag flag. */
  method ExtractEtiquetado(text: string) returns (etiquetado: Option<string>)
    ensures etiquetado == EtiquetadoOf(text)
  {
    etiquetado := None;
    if Contains(text, "etiquetado") || Contains(text, "etiqueta") {
      etiquetado := Some(if Contains(text, "não") || Contains(text, "nao") then "Não" else "Sim");
    }
  }

  /** The recommendation, from the first "recomend" on. */
  method ExtractRecomendacao(text: string) returns (recomendacao: Option<string>)
    ensures recomendacao == RecomendacaoOf(text)
  {
    recomendacao := None;
    if Contains(text, "recomenda") || Contains(text, "recomend") {
      var idx := IndexOf(text, "recomend", 0);
      if idx.Some? {
        recomendacao := Some(Trim(DropStem(text[idx.value..])));
      }
    }
  }

  /** `parseSpeechText(input)`: the fields of a fresh `parsed` are filled one
      after another, in the source's order. */
  method ParseSpeechText(input: string) returns (parsed: Parsed)
    ensures parsed == Interpret(input)
  {
    var text := Normalize(input);
    parsed := Empty;
    var numero := ExtractNumero(text);
    parsed := parsed.(numero := numero);
    var estado := ExtractEstado(text);
    parsed := parsed.(estado := estado);
    var status := ExtractStatus(text);
    parsed := parsed.(status := status);
    var etiquetado := ExtractEtiquetado(text);
    parsed := parsed.(etiquetado := etiquetado);
    var observacao := ExtractObservacao(text, estado);
    parsed := parsed.(observacao := observacao);
    var recomendacao := ExtractRecomendacao(text);
    parsed := parsed.(recomendacao := recomendacao);
  }

  /** Normalization is idempotent, so interpreting an already normalized
      transcript gives the same result. */
  lemma NormalizeIdempotent(input: string)
    ensures Normalize(Normalize(input)) == Normalize(input)
    ensures Interpret(Normalize(input)) == Interpret(input)
  {
    var t := Normalize(input);
    forall i | 0 <= i < |t| ensures NormalChar(t[i]) == t[i] {
      var c := input[i];
      var l := LowerChar(c);
      assert LowerChar(l) == l;
    }
  }

  /** "localizado" lies inside both spellings of "não localizado" and comes
      first in `statusMap`, so the loop always stops there first: the status
      is never "Não Localizado". */
  lemma StatusNeverNaoLocalizado(t: string)
    ensures StatusOf(t) != Some("Não Localizado")
    ensures StatusOf(t).Some? <==> Contains(t, "localizado") || Contains(t, "migrado")
  {
    var k := FirstContained(t, StatusKeys);
    if k.Some? && k.value >= 2 {
      var key := StatusKeys[k.value];
      var i := IndexOf(t, key, 0).value;
      assert OccursAt(key, "localizado", 4);
      OccursInside(t, key, i, "localizado", 4);
      assert false;
    }
    assert StatusKeys[0] == "localizado" && StatusKeys[1] == "migrado";
  }

  /** "bom" is the first key of `estadoMap`, so any transcript holding it (even
      inside another word such as "bombeiro") reads as "Bom". */
  lemma BomWins(input: string)
    requires Contains(Normalize(input), "bom")
    ensures Interpret(input).estado == Some("Bom")
  {
    assert EstadoKeys[0] == "bom";
  }

  /** "etiqueta" lies inside "etiquetado": the tag flag is set exactly when
      "etiqueta" occurs, and then it is "Não" exactly when "não" or "nao"
      occurs anywhere in the transcript. */
  lemma EtiquetadoRule(input: string)
    ensures var t := Normalize(input);
      && (Interpret(input).etiquetado.Some? <==> Contains(t, "etiqueta"))
      && (Interpret(input).etiquetado == Some("Não") <==> Contains(t, "etiqueta") && (Contains(t, "não") || Contains(t, "nao")))
      && (Interpret(input).etiquetado == Some("Sim") <==> Contains(t, "etiqueta") && !Contains(t, "não") && !Contains(t, "nao"))
  {
    var t := Normalize(input);
    if Contains(t, "etiquetado") {
      var i := IndexOf(t, "etiquetado", 0).value;
      assert OccursAt("etiquetado", "etiqueta", 0);
      OccursInside(t, "etiquetado", i, "etiqueta", 0);
      ContainsAt(t, "etiqueta", i);
    }
  }

  /** Every observation keyword starts with "obs": a keyword observation is
      found exactly when "obs" occurs, and it is then the trimmed text after
      the first occurrence of the first keyword in list order, up to the next
      occurrence of that keyword. */
  lemma KeywordObservacaoFound(t: string)
    ensures KeywordObservacao(t).Some? <==> Contains(t, "obs")
    ensures KeywordObservacao(t).Some? ==> IsTrimmed(KeywordObservacao(t).value)
  {
    var k := FirstContained(t, ObsKeywords);
    if k.Some? {
      var kw := ObsKeywords[k.value];
      var i := IndexOf(t, kw, 0).value;
      assert OccursAt(kw, "obs", 0);
      OccursInside(t, kw, i, "obs", 0);
      ContainsAt(t, "obs", i);
      TrimProperties(SecondPiece(t, kw).value);
    } else {
      assert !Contains(t, ObsKeywords[4]);
    }
  }

  /** The observation of a transcript: the keyword observation when there is
      a non-empty one; otherwise, when an estado was recognised and its value,
      lower-cased, occurs in the transcript with text after it, that text
      trimmed; otherwise the keyword observation as it was (absent or ""). */
  lemma ObservacaoCases(input: string)
    ensures var t := Normalize(input);
      var obs := KeywordObservacao(t);
      var estado := EstadoOf(t);
      && (obs.Some? && obs.value != "" ==> Interpret(input).observacao == obs)
      && (Interpret(input).observacao.Some? ==>
            obs.Some? || (estado.Some? && Contains(t, Lower(estado.value))))
      && (Interpret(input).observacao != obs ==>
            && estado.Some?
            && SecondPiece(t, Lower(estado.value)).Some?
            && Interpret(input).observacao == Some(Trim(SecondPiece(t, Lower(estado.value)).value)))
  {
  }

  /** The fallback splits on the lower-cased estado VALUE, which carries the
      accent: a transcript that says "irreversivel" without the accent (and
      no "bom") is read as "Irreversível", but "irreversível" does not occur
      in it, so the fallback never fills the observation. */
  lemma FallbackNeedsAccentedValue(t: string)
    requires !Contains(t, "bom") && Contains(t, "irreversivel") && !Contains(t, "irreversível")
    ensures EstadoOf(t) == Some("Irreversível")
    ensures WithFallback(t, None, EstadoOf(t)) == None
  {
    assert EstadoKeys[0] == "bom" && EstadoKeys[1] == "irreversivel";
    assert FirstContained(t, EstadoKeys) == Some(1);
    assert Lower("Irreversível") == "irreversível";
  }

  /** The recommendation is found exactly when "recomend" occurs. */
  lemma RecomendacaoFound(t: string)
    ensures RecomendacaoOf(t).Some? <==> Contains(t, "recomend")
  {
    if Contains(t, "recomenda") {
      var i := IndexOf(t, "recomenda", 0).value;
      assert OccursAt("recomenda", "recomend", 0);
      OccursInside(t, "recomenda", i, "recomend", 0);
      ContainsAt(t, "recomend", i);
    }
  }

  /** What `replace(/recomend(a|e|ar)?/, '')` leaves of the usual words: the
      optional group takes one 'a' or 'e' and tries "a" before "ar", so
      "recomendação" keeps "ção" and "recomendar" keeps "r"; "recomende"
      loses the whole word and "recomendo" keeps its "o". */
  lemma DropStemWords(rest: string)
    ensures DropStem("recomendação" + rest) == "ção" + rest
    ensures DropStem("recomendar" + rest) == "r" + rest
    ensures DropStem("recomende" + rest) == rest
    ensures DropStem("recomendo" + rest) == "o" + rest
  {
    assert ("recomendação" + rest)[8..] == "ação" + rest;
    assert ("recomendar" + rest)[8..] == "ar" + rest;
    assert ("recomende" + rest)[8..] == "e" + rest;
    assert ("recomendo" + rest)[8..] == "o" + rest;
    assert ("ação" + rest)[1..] == "ção" + rest;
    assert ("ar" + rest)[1..] == "r" + rest;
    assert ("e" + rest)[1..] == rest;
  }

  /** The item number is the leftmost run of three or more ASCII digits with
      no letter, digit or underscore on either side, copied unchanged from the
      transcript (normalization leaves digits alone). */
  lemma NumeroIsDigitRun(input: string)
    ensures NumeroOf(Normalize(input)).Some? ==>
      var n := NumeroOf(Normalize(input)).value;
      && |n| >= 3
      && (forall j :: 0 <= j < |n| ==> IsDigit(n[j]))
      && exists i :: OccursAt(input, n, i)
    ensures NumeroOf(Normalize(input)).None? <==>
      forall i :: 0 <= i <= |input| ==> !LongNumberAt(Normalize(input), i)
  {
    var t := Normalize(input);
    if FirstLongNumber(t, 0).Some? {
      var i := FirstLongNumber(t, 0).value;
      var n := t[i..i + DigitRun(t, i)];
      assert NumeroOf(t) == Some(n);
      DigitRunCopied(input, i);
      assert OccursAt(input, n, i);
    }
  }

  /** A run of digits in the normalized text is found unchanged at the same
      place in the transcript. */
  lemma DigitRunCopied(input: string, i: nat)
    requires i <= |input|
    ensures var t := Normalize(input);
      OccursAt(input, t[i..i + DigitRun(t, i)], i)
  {
    var t := Normalize(input);
    var n := t[i..i + DigitRun(t, i)];
    forall j | 0 <= j < |n| ensures input[i + j] == n[j] {
      assert n[j] == t[i + j];
    }
    assert input[i..i + |n|] == n;
  }
}
