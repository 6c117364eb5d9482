/** What the PDF layer yields for a catalog, as plain values. */
module PdfDocument {
  import opened Optional
  import opened Tables

  /** One page: its extracted text (`""` when there is none) and its tables. */
  datatype Page = Page(text: string, tables: seq<Table>)

  /**
   * A catalog file. `opens` says whether the PDF reader opens it and reads its
   * pages; `infoReadable` whether the document-information dictionary can be
   * read, and `creationDate` is its `/CreationDate` entry if there is one.
   */
  datatype Document = Document(opens: bool, pages: seq<Page>, infoReadable: bool, creationDate: Option<string>)
}
