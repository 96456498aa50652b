/** The records of backend/database/models.go. Go's `float64` amounts are
    `real` (no rounding); the `UpdatedAt`/`CreatedAt` timestamps are not
    modelled. The JSON names the web client sees are given beside each field. */
module Models {

  datatype Deputado = Deputado(
    id: int,            // "id"
    nome: string,       // "nome"
    nomeCivil: string,  // "nomeCivil"
    partido: string,    // "siglaPartido"
    uf: string,         // "siglaUf"
    foto: string,       // "urlFoto"
    email: string)      // "email"

  datatype Despesa = Despesa(
    id: int,
    deputadoId: int,
    ano: int,
    mes: int,
    tipoDespesa: string,
    dataDocumento: string,
    valorDocumento: real,
    valorLiquido: real,
    nomeFornecedor: string,
    cnpjFornecedor: string,
    numDocumento: string)

  /** Go embeds `Deputado` in `RankingDeputado`; here it is a field. */
  datatype RankingDeputado = RankingDeputado(
    deputado: Deputado,
    totalGasto: real,
    numeroGastos: nat,
    posicao: int)

  datatype Projeto = Projeto(
    id: int,
    tipo: string,       // "siglaTipo"
    numero: int,
    ano: int,
    ementa: string,
    dataApresentacao: string,
    urlInteiro: string) // "urlInteiroTeor"
}
