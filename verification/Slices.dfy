/** Slices of the scripts, which stop at the end of the text. */
module Slices {

  /** `s[start:end]` */
  function Slice(s: string, start: nat, end: nat): string {
    var a, b := if start < |s| then start else |s|, if end < |s| then end else |s|;
    if a < b then s[a..b] else ""
  }
}
