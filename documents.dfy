/**
 * The document catalogue (ghost-ui/src/data/documents.ts): a constant table
 * of PDF files turned into the `Document` records the document pages show.
 */
module Documents {

  /** One row of the file table. */
  datatype PdfFile = PdfFile(filename: string, id: string, title: string)

  datatype DocumentType = PDF | DOC | TXT

  datatype Document = Document(
    id: string,
    title: string,
    description: string,
    docType: DocumentType,
    size: string,
    category: string,
    tags: seq<string>,
    lastModified: string,
    filename: string,
    pdfPath: string)

  const PdfFiles: seq<PdfFile> := [
    PdfFile("GOVUK_2010.pdf", "govuk-guide", "2010 Legislations"),
    PdfFile("ElecSafeP.pdf", "ElecSafeP", "Electirical safety"),
    PdfFile("ADF1.pdf", "ADF1", "Access to buildings rules")
  ]

  const DescriptionPrefix := "PDF Document: "
  const DataDirectory := "/data/"
  const FixedSize := "1.2 MB"
  const FixedCategory := "Test"
  const FixedTags: seq<string> := ["test", "pdf"]
  const FixedLastModified := "2024-03-15"

  /** The record built from one table row. */
  function ToDocument(f: PdfFile): (d: Document)
    ensures d.id == f.id && d.title == f.title && d.filename == f.filename
    ensures DescriptionPrefix <= d.description && DataDirectory <= d.pdfPath
  {
    Document(f.id, f.title, DescriptionPrefix + f.filename, PDF, FixedSize, FixedCategory,
             FixedTags, FixedLastModified, f.filename, DataDirectory + f.filename)
  }

  /** `PDF_FILES.map(...)`: one record per row, in the same order. */
  function ToDocuments(files: seq<PdfFile>): (docs: seq<Document>)
    ensures |docs| == |files|
    ensures forall i :: 0 <= i < |files| ==> docs[i] == ToDocument(files[i])
  {
    if files == [] then [] else [ToDocument(files[0])] + ToDocuments(files[1..])
  }

  const AllDocuments := ToDocuments(PdfFiles)

  /** The file a record names can be read back from its path and its
      description, and the fixed fields are the same for every record. */
  lemma DocumentFields(f: PdfFile)
    ensures var d := ToDocument(f);
            && d.pdfPath[|DataDirectory|..] == f.filename
            && d.description[|DescriptionPrefix|..] == f.filename
            && d.docType == PDF && d.size == FixedSize && d.category == FixedCategory
            && d.tags == FixedTags && d.lastModified == FixedLastModified
  {
  }

  /** The catalogue has three documents, with distinct ids and distinct
      paths, in table order. */
  lemma CatalogueShape()
    ensures |AllDocuments| == 3
    ensures forall i, j :: 0 <= i < j < |AllDocuments| ==>
              AllDocuments[i].id != AllDocuments[j].id && AllDocuments[i].pdfPath != AllDocuments[j].pdfPath
    ensures AllDocuments[0].pdfPath == "/data/GOVUK_2010.pdf" && AllDocuments[2].id == "ADF1"
  {
    var d := AllDocuments;
    assert d[0] == ToDocument(PdfFiles[0]) && d[1] == ToDocument(PdfFiles[1]) && d[2] == ToDocument(PdfFiles[2]);
    assert d[0].pdfPath[6] == 'G' && d[1].pdfPath[6] == 'E' && d[2].pdfPath[6] == 'A';
    assert d[0].id[0] == 'g' && d[1].id[0] == 'E' && d[2].id[0] == 'A';
  }
}
