/**
 * The record shapes of the inventory tool (src/types/index.ts).
 *
 * An inventory item is keyed by whatever header names the imported CSV
 * carries, so it is a map from column name to text; the eight named columns
 * below are the ones the import requires and the export writes.
 */
module Inventory {

  /** One inventory item: column name to cell text. A missing key is the
      JavaScript `undefined`. */
  type Item = map<string, string>

  /** One imported inventory batch as kept in browser storage. */
  datatype Database = Database(id: string, name: string, items: seq<Item>, createdAt: string)

  const NUMERO: string := "NUMERO"
  const DESCRICAO: string := "DESCRIÇÃO"
  const SALA: string := "SALA"
  const ESTADO: string := "ESTADO DE CONSERVAÇÃO"
  const STATUS: string := "STATUS"
  const ETIQUETADO: string := "ETIQUETADO"
  const OBSERVACAO: string := "OBSERVAÇÃO"
  const RECOMENDACAO: string := "RECOMENDAÇÃO"

  /** `item.NUMERO === numero`: an absent key is `undefined` and matches nothing. */
  predicate HasNumero(item: Item, numero: string) {
    NUMERO in item && item[NUMERO] == numero
  }
}
