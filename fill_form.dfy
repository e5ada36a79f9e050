/**
 * `fillFormWithData` of src/lib/fillForm.ts: the voice form is filled from
 * the interpreted transcript and, for some fields, from the row found for
 * its number. `a ?? b` falls back only when `a` is null or undefined (a
 * missing key); an empty string present under a key stops the chain.
 */
module FillForm {
  import opened Text
  import opened Inventory
  import opened SpeechParser

  /** `FormData`: the eight text fields of the voice form. */
  datatype FormData = FormData(
    numero: string,
    descricao: string,
    sala: string,
    estado: string,
    status: string,
    etiquetado: string,
    observacao: string,
    recomendacao: string)

  /** `item?.k1 ?? item?.k2 ?? ...`: the value under the first of `keys` the
      row has, `None` when there is no row or it has none of them. */
  function FirstPresent(item: Option<Item>, keys: seq<string>): (r: Option<string>)
    ensures r.Some? <==> item.Some? && exists i :: 0 <= i < |keys| && keys[i] in item.value
    ensures r.Some? ==> exists i :: 0 <= i < |keys| && keys[i] in item.value && r.value == item.value[keys[i]]
                          && forall j :: 0 <= j < i ==> keys[j] !in item.value
  {
    if item.None? || keys == [] then None
    else if keys[0] in item.value then Some(item.value[keys[0]])
    else
      var rest := FirstPresent(item, keys[1..]);
      assert rest.Some? ==> exists i :: 1 <= i < |keys| && keys[i] in item.value && rest.value == item.value[keys[i]]
                              && forall j :: 0 <= j < i ==> keys[j] !in item.value by {
        if rest.Some? {
          var i :| 0 <= i < |keys| - 1 && keys[1..][i] in item.value && rest.value == item.value[keys[1..][i]]
                   && forall j :: 0 <= j < i ==> keys[1..][j] !in item.value;
          assert forall j :: 1 <= j < i + 1 ==> keys[j] == keys[1..][j - 1];
        }
      }
      assert (exists i :: 0 <= i < |keys| && keys[i] in item.value) ==> exists i :: 0 <= i < |keys| - 1 && keys[1..][i] in item.value by {
        if exists i :: 0 <= i < |keys| && keys[i] in item.value {
          var i :| 0 <= i < |keys| && keys[i] in item.value;
          assert keys[1..][i - 1] == keys[i];
        }
      }
      rest
  }

  /** `a ?? d`. */
  function OrElse(a: Option<string>, d: string): string {
    if a.Some? then a.value else d
  }

  const NumeroKeys: seq<string> := ["numero", "id", "etiqueta"]
  const DescricaoKeys: seq<string> := ["descricao", "descricao_item", "Descricao"]
  const SalaKeys: seq<string> := ["sala", "local", "Sala"]
  const ObservacaoKey: string := "observacao"

  /** `fillFormWithData(item, parsed)`, with `None` for a null row. The
      trailing `|| ''` of descricao and sala turns only an empty string into
      an empty string, so it is the identity on text and drops out. */
  function Fill(item: Option<Item>, parsed: Parsed): FormData {
    FormData(
      numero := if parsed.numero.Some? then parsed.numero.value else OrElse(FirstPresent(item, NumeroKeys), ""),
      descricao := OrElse(FirstPresent(item, DescricaoKeys), ""),
      sala := OrElse(FirstPresent(item, SalaKeys), ""),
      estado := OrElse(parsed.estado, ""),
      status := OrElse(parsed.status, ""),
      etiquetado := OrElse(parsed.etiquetado, ""),
      observacao := if parsed.observacao.Some? then parsed.observacao.value
                    else OrElse(FirstPresent(item, [ObservacaoKey]), ""),
      recomendacao := OrElse(parsed.recomendacao, ""))
  }

  /** What the transcript says wins for numero and observacao, even when it
      is the empty string; estado, status, etiquetado and recomendacao come
      from the transcript alone, "" when it is silent. */
  lemma TranscriptFields(item: Option<Item>, parsed: Parsed)
    ensures parsed.numero.Some? ==> Fill(item, parsed).numero == parsed.numero.value
    ensures parsed.observacao.Some? ==> Fill(item, parsed).observacao == parsed.observacao.value
    ensures Fill(item, parsed).estado == (if parsed.estado.Some? then parsed.estado.value else "")
    ensures Fill(item, parsed).status == (if parsed.status.Some? then parsed.status.value else "")
    ensures Fill(item, parsed).etiquetado == (if parsed.etiquetado.Some? then parsed.etiquetado.value else "")
    ensures Fill(item, parsed).recomendacao == (if parsed.recomendacao.Some? then parsed.recomendacao.value else "")
  {
  }

  /** descricao and sala ignore the transcript entirely: two transcripts
      give the same descricao and sala for the same row. */
  lemma DescricaoSalaFromRowOnly(item: Option<Item>, p1: Parsed, p2: Parsed)
    ensures Fill(item, p1).descricao == Fill(item, p2).descricao
    ensures Fill(item, p1).sala == Fill(item, p2).sala
  {
  }

  /** The row fills a field from the first of its keys it has; a key present
      with the empty string stops the chain, and a row with none of the keys
      gives "". */
  lemma RowFallback(row: Item, parsed: Parsed)
    ensures "descricao" in row ==> Fill(Some(row), parsed).descricao == row["descricao"]
    ensures "descricao" !in row && "descricao_item" in row ==> Fill(Some(row), parsed).descricao == row["descricao_item"]
    ensures "sala" in row ==> Fill(Some(row), parsed).sala == row["sala"]
    ensures "sala" !in row && "local" in row ==> Fill(Some(row), parsed).sala == row["local"]
    ensures parsed.numero.None? && "numero" in row ==> Fill(Some(row), parsed).numero == row["numero"]
    ensures parsed.numero.None? && "numero" !in row && "id" in row ==> Fill(Some(row), parsed).numero == row["id"]
    ensures parsed.observacao.None? && "observacao" in row ==> Fill(Some(row), parsed).observacao == row["observacao"]
    ensures (forall i :: 0 <= i < |DescricaoKeys| ==> DescricaoKeys[i] !in row) ==> Fill(Some(row), parsed).descricao == ""
  {
    FirstTwo(row, DescricaoKeys);
    FirstTwo(row, SalaKeys);
    FirstTwo(row, NumeroKeys);
    FirstTwo(row, [ObservacaoKey]);
  }

  /** The first two links of a `??` chain over a row. */
  lemma FirstTwo(row: Item, keys: seq<string>)
    requires |keys| >= 1
    ensures keys[0] in row ==> FirstPresent(Some(row), keys) == Some(row[keys[0]])
    ensures |keys| >= 2 && keys[0] !in row && keys[1] in row ==> FirstPresent(Some(row), keys) == Some(row[keys[1]])
  {
    if |keys| >= 2 && keys[0] !in row {
      assert keys[1..][0] == keys[1];
    }
  }

  /** Without a row, every field is the transcript's value or "". */
  lemma NoRow(parsed: Parsed)
    ensures Fill(None, parsed) == FormData(
      OrElse(parsed.numero, ""), "", "", OrElse(parsed.estado, ""), OrElse(parsed.status, ""),
      OrElse(parsed.etiquetado, ""), OrElse(parsed.observacao, ""), OrElse(parsed.recomendacao, ""))
  {
  }
}
