/** `MediaService.getMediaTypeFromMimeType` (src/media/media.service.ts):
    classification of an uploaded file by its MIME type. */
module MediaService {
  import opened JsStrings
  import opened Constants

  /** The media type the service stores for a file with this MIME type. */
  function MediaTypeOf(mimetype: string): (t: MediaType)
    ensures StartsWith(mimetype, "image/") ==> t == IMAGE
    ensures !StartsWith(mimetype, "image/") && (Includes(mimetype, "pdf") || Includes(mimetype, "document")) ==> t == DOCUMENT
    ensures t == OTHER <==> !StartsWith(mimetype, "image/") && !Includes(mimetype, "pdf") && !Includes(mimetype, "document")
  {
    if StartsWith(mimetype, "image/") then IMAGE
    else if Includes(mimetype, "pdf") || Includes(mimetype, "document") then DOCUMENT
    else OTHER
  }

  /** Any MIME type containing "pdf" or "document" somewhere after its first
      position, and not starting with "image/", is a document. */
  lemma {:induction false} DocumentAnywhere(prefix: string, word: string, suffix: string)
    requires word == "pdf" || word == "document"
    requires !StartsWith(prefix + word + suffix, "image/")
    ensures MediaTypeOf(prefix + word + suffix) == DOCUMENT
  {
    var s := prefix + word + suffix;
    assert s[|prefix|..][..|word|] == word;
    IncludesAt(s, word, |prefix|);
  }

  /** The image prefix wins over the document keywords. */
  lemma ImagePrecedence()
    ensures MediaTypeOf("image/pdf") == IMAGE
  {
    var m := "image/pdf";
    assert m[..6] == "image/";
  }

  /** A PDF outside the image family is a document. */
  lemma PdfIsDocument()
    ensures MediaTypeOf("application/pdf") == DOCUMENT
  {
    var m := "application/pdf";
    assert m == "application/" + "pdf" + "";
    assert m[0] == 'a';
    DocumentAnywhere("application/", "pdf", "");
  }

  /** A type naming neither keyword nor the image family is other. */
  lemma CsvIsOther()
    ensures MediaTypeOf("text/csv") == OTHER
  {
    var m := "text/csv";
    assert m[0] == 't';
    assert 'p' !in m && 'd' !in m;
    NotIncludes(m, "pdf");
    NotIncludes(m, "document");
  }

  /** A string in which the first character of `t` never occurs does not include `t`. */
  lemma {:induction false} NotIncludes(s: string, t: string)
    requires t != [] && t[0] !in s
    ensures !Includes(s, t)
  {
    if s != [] {
      assert s[0] != t[0];
      assert t[0] !in s[1..] by {
        assert forall i :: 0 <= i < |s| - 1 ==> s[1..][i] == s[i + 1];
      }
      NotIncludes(s[1..], t);
    }
  }
}
