/** One policy for first assessment, reassessment and reindexing. */
module Disposition {
  datatype Disposition = Archive | Quarantine

  datatype Reason = NoReason | DegradedExtraction | NoTextExtracted | DlpHit

  // What the policy looks at of an extracted document.
  datatype Extraction = Extraction(pageCount: nat, failedPages: nat, degraded: bool, lines: seq<string>)

  function Decide(text: Extraction, quarantineHit: bool, quarantineOnDegraded: bool): (Disposition, Reason) {
    if quarantineOnDegraded && text.failedPages > 0 then (Quarantine, DegradedExtraction)
    else if quarantineOnDegraded && text.pageCount > 0 && text.lines == [] then (Quarantine, NoTextExtracted)
    else if quarantineOnDegraded && text.degraded then (Quarantine, DegradedExtraction)
    else if quarantineHit then (Quarantine, DlpHit)
    else (Archive, NoReason)
  }
}
