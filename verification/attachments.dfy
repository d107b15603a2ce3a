/**
 * How a request's files are named and located: the name shown and the name
 * saved for an attachment path, whether a stored URL is used as it is or
 * resolved through a storage bucket, and whether there is anything to show.
 */
module Attachments {
  import opened Wrappers
  import opened Text
  import opened Schema

  datatype Bucket = InvoicesBucket | RequestAttachmentsBucket

  function BucketName(b: Bucket): string {
    match b
    case InvoicesBucket => "invoices"
    case RequestAttachmentsBucket => "request-attachments"
  }

  /** Where a file is fetched from: a URL used as it is, or a path inside a bucket. */
  datatype UrlTarget = Direct(url: string) | Stored(bucket: Bucket, path: string)

  /**
   * `handleViewFile`: a URL starting with "http" is opened as it is; any
   * other text is a path in the invoices bucket.
   */
  function ViewInvoiceFile(fileUrl: string): (t: UrlTarget)
    ensures t.Direct? <==> StartsWith(fileUrl, "http")
    ensures t.Direct? ==> t.url == fileUrl
    ensures t.Stored? ==> t == Stored(InvoicesBucket, fileUrl)
  {
    if StartsWith(fileUrl, "http") then Direct(fileUrl) else Stored(InvoicesBucket, fileUrl)
  }

  /** A download: where the bytes come from and the name the file is saved under. */
  datatype Download = Download(source: UrlTarget, saveAs: string)

  /**
   * `handleDownloadFile`, whose test is written the other way round: a URL
   * not starting with "http" is downloaded from the invoices bucket, any
   * other is fetched; the file is saved under the invoice's name.
   */
  function DownloadInvoiceFile(fileUrl: string, fileName: string): (d: Download)
    ensures d.saveAs == fileName
    ensures !StartsWith(fileUrl, "http") ==> d.source == Stored(InvoicesBucket, fileUrl)
    ensures StartsWith(fileUrl, "http") ==> d.source == Direct(fileUrl)
  {
    if !StartsWith(fileUrl, "http") then Download(Stored(InvoicesBucket, fileUrl), fileName)
    else Download(Direct(fileUrl), fileName)
  }

  /** Viewing and downloading an invoice file resolve its URL to the same place. */
  lemma ViewAndDownloadAgree(fileUrl: string, fileName: string)
    ensures DownloadInvoiceFile(fileUrl, fileName).source == ViewInvoiceFile(fileUrl)
  {
  }

  /** Attachments are always looked up in the request-attachments bucket, for viewing and for downloading. */
  function AttachmentSource(attachment: string): (t: UrlTarget)
    ensures t.Stored? && t.bucket == RequestAttachmentsBucket && t.path == attachment
  {
    Stored(RequestAttachmentsBucket, attachment)
  }

  /** The name listed for the attachment at `index`: its last path segment, or "Anexo n" counting from 1. */
  function DisplayName(attachment: string, index: nat): (name: string)
    ensures name != ""
    ensures LastSegment(attachment) != "" ==> name == LastSegment(attachment) && '/' !in name
    ensures LastSegment(attachment) == "" ==> name == "Anexo " + NatToString(index + 1)
  {
    var segment := LastSegment(attachment);
    if segment != "" then segment else "Anexo " + NatToString(index + 1)
  }

  /** The name a downloaded attachment is saved under: its last path segment, or "anexo". */
  function DownloadName(attachment: string): (name: string)
    ensures name != ""
    ensures LastSegment(attachment) != "" ==> name == LastSegment(attachment)
    ensures LastSegment(attachment) == "" ==> name == "anexo"
  {
    var segment := LastSegment(attachment);
    if segment != "" then segment else "anexo"
  }

  /** A path `dir/name` is listed and saved under `name`. */
  lemma NamesOfStoredPath(dir: string, name: string, index: nat)
    requires name != "" && '/' !in name
    ensures DisplayName(dir + "/" + name, index) == name
    ensures DownloadName(dir + "/" + name) == name
  {
    LastSegmentOfJoin(dir, name);
  }

  /** A path ending in '/' falls back: it is listed by its position and saved as "anexo". */
  lemma NamesOfDirectoryPath(dir: string, index: nat)
    ensures DisplayName(dir + "/", index) == "Anexo " + NatToString(index + 1)
    ensures DownloadName(dir + "/") == "anexo"
  {
    LastSegmentOfJoin(dir, "");
    assert dir + "/" + "" == dir + "/";
  }

  /** `(attachments && attachments.length > 0) || invoices.length > 0`. */
  predicate HasAttachments(attachments: Option<seq<string>>, invoices: seq<InvoiceFile>) {
    (attachments.Some? && |attachments.value| > 0) || |invoices| > 0
  }

  /** The "no attachments" message shows exactly when both lists are empty or absent. */
  lemma NothingToShow(attachments: Option<seq<string>>, invoices: seq<InvoiceFile>)
    ensures !HasAttachments(attachments, invoices) <==> attachments.GetOr([]) == [] && invoices == []
  {
  }
}
