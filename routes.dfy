/** `api/routes.py`: the pure helpers the upload endpoints use to decide a
    file's type and size limit. The endpoints themselves, the chunked
    upload, the temporary files and base64 decoding are not modelled. */
module Routes {
  import opened Base
  import opened Chars
  import opened PyStr

  /** A byte of an uploaded file. */
  newtype byte = x: int | 0 <= x < 256

  /** `MAX_IMAGE_BYTES` and `MAX_PDF_BYTES` with their default values. */
  const MAX_IMAGE_BYTES: nat := 6000000
  const MAX_PDF_BYTES: nat := 20000000

  /** `ALLOWED_EXT`. */
  const ALLOWED_EXT: set<string> := {"jpg", "jpeg", "png", "webp", "pdf"}

  /** The extensions a choice can end in: the allowed ones but "jpeg". */
  const CHOSEN_EXT: set<string> := {"jpg", "png", "webp", "pdf"}

  // ---------------------------------------------------------------------
  // _strip_data_url
  // ---------------------------------------------------------------------

  /** `_strip_data_url`: the stripped text after the first comma of a
      "data:" URL; any other text stripped. A "data:" text without a comma
      is kept whole. */
  function StripDataUrl(s: string): (r: string)
    ensures Trimmed(r)
    ensures !StartsWith(Strip(s), "data:") || ',' !in Strip(s) ==> r == Strip(s)
  {
    var t := Strip(s);
    StripUnchanged(t);
    if StartsWith(t, "data:") && ',' in t then
      var comma := IndexOf(t, ',');
      StripUnchanged(Strip(t[comma + 1..]));
      Strip(t[comma + 1..])
    else t
  }

  /** A data URL gives back its stripped payload, whatever its header as
      long as that holds no comma. */
  lemma StripDataUrlPayload(header: string, payload: string)
    requires ',' !in header
    ensures StripDataUrl("data:" + header + "," + payload) == Strip(payload)
  {
    var pre := "data:" + header + ",";
    assert pre[..5] == "data:" && pre[|pre| - 1] == ',';
    assert forall i | 0 <= i < |pre| - 1 :: pre[i] != ',' by {
      assert forall i | 5 <= i < |pre| - 1 :: pre[i] == header[i - 5];
    }
    assert "data:" + header + "," + payload == pre + payload;
    DataUrlAfterComma(pre, payload);
  }

  /** The same for any prefix that starts with "data:" and ends in its only
      comma. */
  lemma DataUrlAfterComma(pre: string, payload: string)
    requires |pre| >= 5 && pre[..5] == "data:" && pre[|pre| - 1] == ','
    requires forall i | 0 <= i < |pre| - 1 :: pre[i] != ','
    ensures StripDataUrl(pre + payload) == Strip(payload)
  {
    var rest := StrippedUrl(pre, payload);
    var t := Strip(pre + payload);
    FirstComma(pre, rest);
    assert t[|pre|..] == rest;
    StripDataUrlAt(pre + payload, |pre| - 1);
  }

  /** The stripped URL is the prefix followed by the payload without its
      trailing whitespace, whose strip is the payload's. */
  lemma StrippedUrl(pre: string, payload: string) returns (rest: string)
    requires |pre| > 0 && !IsSpace(pre[0]) && !IsSpace(pre[|pre| - 1])
    ensures Strip(pre + payload) == pre + rest && Strip(rest) == Strip(payload)
  {
    var s := pre + payload;
    var k, j := StripBounds(payload);
    var e := if j == k then |pre| else |pre| + j;
    assert forall i | 0 <= i < |payload| :: s[|pre| + i] == payload[i];
    assert forall i | 0 <= i < |pre| :: s[i] == pre[i];
    StripUnique(s, 0, e);
    assert s[..e] == pre + s[|pre|..e];
    rest := s[|pre|..e];
    if j > k {
      assert rest == payload[..j];
      StripUnique(payload[..j], k, j);
      assert payload[..j][k..j] == payload[k..j];
    }
  }

  /** The first comma of a prefix ending in its only comma. */
  lemma FirstComma(pre: string, rest: string)
    requires |pre| > 0 && pre[|pre| - 1] == ','
    requires forall i | 0 <= i < |pre| - 1 :: pre[i] != ','
    ensures IndexOf(pre + rest, ',') == |pre| - 1
  {
    var t := pre + rest;
    assert forall i | 0 <= i < |pre| :: t[i] == pre[i];
  }

  /** `_strip_data_url` on a "data:" text whose first comma is at `c`. */
  lemma StripDataUrlAt(s: string, c: nat)
    requires StartsWith(Strip(s), "data:")
    requires c < |Strip(s)| && IndexOf(Strip(s), ',') == c
    ensures StripDataUrl(s) == Strip(Strip(s)[c + 1..])
  {
  }

  /** Where `Strip` cuts: the whitespace before `k` and from `j` on goes,
      and `s[k..j]` is what is left. */
  lemma StripBounds(s: string) returns (k: nat, j: nat)
    ensures k <= j <= |s| && Strip(s) == s[k..j]
    ensures forall i | 0 <= i < k :: IsSpace(s[i])
    ensures forall i | j <= i < |s| :: IsSpace(s[i])
    ensures k < j ==> !IsSpace(s[k]) && !IsSpace(s[j - 1])
  {
    var l := LStrip(s);
    LStripSuffix(s);
    k := |s| - |l|;
    BlankBefore(s, k);
    var r := RStrip(l);
    RStripPrefix(l);
    j := k + |r|;
    BlankFrom(s, l, k, |r|);
  }

  /** A blank prefix, character by character. */
  lemma BlankBefore(s: string, k: nat)
    requires k <= |s| && Blank(s[..k])
    ensures forall i | 0 <= i < k :: IsSpace(s[i])
  {
    assert forall i | 0 <= i < k :: s[i] == s[..k][i];
  }

  /** A blank tail of the suffix `l` of `s` from `k`, character by
      character in `s`. */
  lemma BlankFrom(s: string, l: string, k: nat, n: nat)
    requires k <= |s| && l == s[k..] && n <= |l| && Blank(l[n..])
    ensures forall i | k + n <= i < |s| :: IsSpace(s[i])
    ensures l[..n] == s[k..k + n]
  {
    assert forall i | k + n <= i < |s| :: s[i] == l[n..][i - k - n];
  }

  /** The strip of `s` is any `s[a..b]` with no surrounding whitespace
      whose outside is all whitespace. */
  lemma StripUnique(s: string, a: nat, b: nat)
    requires a <= b <= |s|
    requires forall i | 0 <= i < a :: IsSpace(s[i])
    requires forall i | b <= i < |s| :: IsSpace(s[i])
    requires a < b ==> !IsSpace(s[a]) && !IsSpace(s[b - 1])
    ensures Strip(s) == s[a..b]
  {
    var k, j := StripBounds(s);
    if a == b {
      assert Blank(s);
      StripEmptyIffBlank(s);
    } else {
      assert k == a;
      assert j == b;
    }
  }

  // ---------------------------------------------------------------------
  // _sniff_ext
  // ---------------------------------------------------------------------

  /** The four file types a choice can end in. */
  datatype Ext = Jpg | Png | Webp | Pdf

  /** The extension's name, as `_choose_ext` returns it. */
  function Name(e: Ext): (r: string)
    ensures r in CHOSEN_EXT
  {
    match e
    case Jpg => "jpg"
    case Png => "png"
    case Webp => "webp"
    case Pdf => "pdf"
  }

  /** The magic bytes `_sniff_ext` looks for. */
  const PDF_MAGIC: seq<byte> := [0x25, 0x50, 0x44, 0x46]               // "%PDF"
  const JPG_MAGIC: seq<byte> := [0xFF, 0xD8, 0xFF]
  const PNG_MAGIC: seq<byte> := [0x89, 0x50, 0x4E, 0x47, 0x0D, 0x0A, 0x1A, 0x0A]
  const RIFF_TAG: seq<byte> := [0x52, 0x49, 0x46, 0x46]                // "RIFF"
  const WEBP_TAG: seq<byte> := [0x57, 0x45, 0x42, 0x50]                // "WEBP"

  predicate HasPrefix(blob: seq<byte>, p: seq<byte>)
  {
    |p| <= |blob| && blob[..|p|] == p
  }

  /** A RIFF container whose form type, bytes 8 to 12, is "WEBP". */
  predicate IsWebp(blob: seq<byte>)
  {
    |blob| >= 12 && blob[..4] == RIFF_TAG && blob[8..12] == WEBP_TAG
  }

  /** `_sniff_ext`: the signatures are tried in the order pdf, jpg, png,
      webp, and None means none of them is there. */
  function SniffExt(blob: seq<byte>): (r: Option<Ext>)
    ensures r == None <==>
      !HasPrefix(blob, PDF_MAGIC) && !HasPrefix(blob, JPG_MAGIC) && !HasPrefix(blob, PNG_MAGIC) && !IsWebp(blob)
  {
    if HasPrefix(blob, PDF_MAGIC) then Some(Pdf)
    else if HasPrefix(blob, JPG_MAGIC) then Some(Jpg)
    else if HasPrefix(blob, PNG_MAGIC) then Some(Png)
    else if IsWebp(blob) then Some(Webp)
    else None
  }

  /** No two signatures overlap, so each one alone decides the type. */
  lemma SniffSignatures(rest: seq<byte>, size: seq<byte>)
    requires |size| == 4
    ensures SniffExt(PDF_MAGIC + rest) == Some(Pdf)
    ensures SniffExt(JPG_MAGIC + rest) == Some(Jpg)
    ensures SniffExt(PNG_MAGIC + rest) == Some(Png)
    ensures SniffExt(RIFF_TAG + size + WEBP_TAG + rest) == Some(Webp)
  {
    assert (PDF_MAGIC + rest)[..4] == PDF_MAGIC;
    var j := JPG_MAGIC + rest;
    assert j[..3] == JPG_MAGIC && j[0] != PDF_MAGIC[0];
    var p := PNG_MAGIC + rest;
    assert p[..8] == PNG_MAGIC && p[0] != PDF_MAGIC[0] && p[0] != JPG_MAGIC[0];
    var w := RIFF_TAG + size + WEBP_TAG + rest;
    assert w[..4] == RIFF_TAG && w[8..12] == WEBP_TAG;
    assert w[0] != PDF_MAGIC[0] && w[0] != JPG_MAGIC[0] && w[0] != PNG_MAGIC[0];
  }

  // ---------------------------------------------------------------------
  // _normalize_ext
  // ---------------------------------------------------------------------

  /** The extension stripped, lower-cased and without leading dots. */
  function DotLess(ext: string): (r: string)
    ensures r == "" || r[0] != '.'
  {
    LStripChars(LowerStr(Strip(ext)), ".")
  }

  /** `_normalize_ext`: stripped, lower-cased, leading dots removed, and
      "jpeg" spelt "jpg". */
  function NormalizeExt(ext: string): (r: string)
    ensures r != "jpeg"
    ensures r == "" || r[0] != '.'
  {
    var e := DotLess(ext);
    if e == "jpeg" then "jpg" else e
  }

  /** Text without capitals is its own lower case. */
  lemma LowerStrUnchanged(s: string)
    requires forall i | 0 <= i < |s| :: !IsUpper(s[i])
    ensures LowerStr(s) == s
  {
  }

  /** A trimmed, capital-free text with no leading dot normalises to itself
      unless it is "jpeg". */
  lemma NormalizeExtFixed(s: string)
    requires Trimmed(s) && (s == "" || s[0] != '.') && s != "jpeg"
    requires forall i | 0 <= i < |s| :: !IsUpper(s[i])
    ensures NormalizeExt(s) == s
  {
    StripUnchanged(s);
    LowerStrUnchanged(s);
  }

  /** The four names normalise to themselves. */
  lemma NormalizeExtNames(e: Ext)
    ensures NormalizeExt(Name(e)) == Name(e)
  {
    var n := Name(e);
    assert |n| >= 3 && n[0] != '.' && !IsSpace(n[0]) && !IsSpace(n[|n| - 1]);
    assert forall i | 0 <= i < |n| :: IsAsciiLower(n[i]);
    NormalizeExtFixed(n);
  }

  /** "jpeg" becomes "jpg". */
  lemma NormalizeExtJpeg()
    ensures NormalizeExt("jpeg") == "jpg"
  {
    var j := "jpeg";
    assert !IsSpace(j[0]) && !IsSpace(j[3]);
    StripUnchanged(j);
    assert forall i | 0 <= i < 4 :: IsAsciiLower(j[i]);
    LowerStrUnchanged(j);
    assert j[0] !in ".";
    assert LStripChars(j, ".") == j;
  }

  /** Capitals do not matter. */
  lemma NormalizeExtCase(s: string)
    ensures NormalizeExt(UpperStr(s)) == NormalizeExt(s)
  {
    DotLessCase(s);
  }

  lemma DotLessCase(s: string)
    ensures DotLess(UpperStr(s)) == DotLess(s)
  {
    StripUpper(s);
    LowerOfUpperStr(Strip(s));
  }

  lemma LowerOfUpperStr(t: string)
    ensures LowerStr(UpperStr(t)) == LowerStr(t)
  {
    forall i | 0 <= i < |t| ensures Lower(Upper(t[i])) == Lower(t[i]) {
      LowerOfUpper(t[i]);
    }
  }

  lemma LowerOfUpper(c: char)
    ensures Lower(Upper(c)) == Lower(c)
  {
  }

  /** A leading dot does not matter. */
  lemma NormalizeExtDot(s: string)
    requires Trimmed(s)
    ensures NormalizeExt("." + s) == NormalizeExt(s)
  {
    DotLessDot(s);
  }

  lemma DotLessDot(s: string)
    requires Trimmed(s)
    ensures DotLess("." + s) == DotLess(s)
  {
    var d := "." + s;
    assert Trimmed(d);
    StripUnchanged(d);
    StripUnchanged(s);
    LowerStrConcat(".", s);
    assert LowerStr(".") == ".";
    assert ("." + LowerStr(s))[1..] == LowerStr(s);
  }

  /** `ext in ALLOWED_EXT` for a normalised `ext`, as the type it names. */
  function AllowedExt(ext: string): (r: Option<Ext>)
    ensures r.Some? <==> ext in ALLOWED_EXT
  {
    if ext == "jpg" || ext == "jpeg" then Some(Jpg)
    else if ext == "png" then Some(Png)
    else if ext == "webp" then Some(Webp)
    else if ext == "pdf" then Some(Pdf)
    else None
  }

  /** An allowed extension other than "jpeg" is the name of its type; a
      normalised one is never "jpeg". */
  lemma AllowedNormalized(ext: string)
    requires AllowedExt(ext).Some? && ext != "jpeg"
    ensures Name(AllowedExt(ext).value) == ext
  {
  }

  // ---------------------------------------------------------------------
  // _choose_ext and _max_bytes_for_ext
  // ---------------------------------------------------------------------

  /** A choice of extension or the HTTPException `_choose_ext` raises. */
  datatype Choice = Chosen(ext: Ext) | Rejected(status: nat, detail: string)

  /** The type the content type names, lower-cased and stripped. */
  function ContentTypeExt(contentType: Option<string>): Option<Ext>
  {
    var ct := Strip(LowerStr(contentType.OrElse("")));
    if ct == "application/pdf" then Some(Pdf)
    else if ct == "image/jpeg" || ct == "image/jpg" then Some(Jpg)
    else if ct == "image/png" then Some(Png)
    else if ct == "image/webp" then Some(Webp)
    else None
  }

  /** The type named by the text after the last '.' of a file name that has
      one. */
  function SuffixExt(filename: Option<string>): Option<Ext>
  {
    if filename.Some? && '.' in filename.value then
      var parts := SplitOn(filename.value, '.');
      AllowedExt(NormalizeExt(parts[|parts| - 1]))
    else None
  }

  const UNDETERMINED: string := "Could not determine file type. Provide extension or upload a valid jpg/png/webp/pdf."

  /** `_choose_ext`: an explicit extension wins (and must be allowed), then
      the content type, then the file name's suffix, then the bytes; with
      none of them the type is undetermined. Every rejection is a 400. */
  function ChooseExt(reqExt: Option<string>, blob: Option<seq<byte>>, filename: Option<string>,
                     contentType: Option<string>): (r: Choice)
    ensures r.Rejected? ==> r.status == 400
  {
    if reqExt.Some? && reqExt.value != "" then
      match AllowedExt(NormalizeExt(reqExt.value))
      case None => Rejected(400, "Unsupported extension: " + reqExt.value)
      case Some(e) => Chosen(e)
    else if ContentTypeExt(contentType).Some? then Chosen(ContentTypeExt(contentType).value)
    else if SuffixExt(filename).Some? then Chosen(SuffixExt(filename).value)
    else if blob.Some? && blob.value != [] && SniffExt(blob.value).Some? then Chosen(SniffExt(blob.value).value)
    else Rejected(400, UNDETERMINED)
  }

  /** A non-empty explicit extension decides alone: the other three inputs
      are not looked at; it is rejected exactly when its normalised form is
      not allowed, and otherwise that form is the chosen name. */
  lemma ExplicitWins(req: string, b1: Option<seq<byte>>, f1: Option<string>, c1: Option<string>,
                     b2: Option<seq<byte>>, f2: Option<string>, c2: Option<string>)
    requires req != ""
    ensures ChooseExt(Some(req), b1, f1, c1) == ChooseExt(Some(req), b2, f2, c2)
    ensures ChooseExt(Some(req), b1, f1, c1).Rejected? <==> NormalizeExt(req) !in ALLOWED_EXT
    ensures ChooseExt(Some(req), b1, f1, c1).Chosen? ==> Name(ChooseExt(Some(req), b1, f1, c1).ext) == NormalizeExt(req)
  {
    var ext := NormalizeExt(req);
    if AllowedExt(ext).Some? {
      AllowedNormalized(ext);
    }
  }

  /** Without an explicit extension, a known content type beats the file
      name and the bytes, and a known suffix beats the bytes; the choice
      fails only when all three say nothing. */
  lemma FallbackOrder(reqExt: Option<string>, blob: Option<seq<byte>>, filename: Option<string>,
                      contentType: Option<string>)
    requires reqExt.None? || reqExt == Some("")
    ensures ContentTypeExt(contentType).Some? ==>
      ChooseExt(reqExt, blob, filename, contentType) == Chosen(ContentTypeExt(contentType).value)
    ensures ContentTypeExt(contentType).None? && SuffixExt(filename).Some? ==>
      ChooseExt(reqExt, blob, filename, contentType) == Chosen(SuffixExt(filename).value)
    ensures ContentTypeExt(contentType).None? && SuffixExt(filename).None? ==>
      (ChooseExt(reqExt, blob, filename, contentType).Chosen? <==> blob.Some? && SniffExt(blob.value).Some?)
  {
    if blob.Some? && blob.value == [] {
      assert !HasPrefix(blob.value, PDF_MAGIC) && !HasPrefix(blob.value, JPG_MAGIC);
    }
  }

  /** `_max_bytes_for_ext`: the PDF limit for "pdf", the image limit for
      every other extension. */
  function MaxBytesForExt(ext: string): (r: nat)
    ensures r == MAX_PDF_BYTES <==> ext == "pdf"
    ensures r == MAX_PDF_BYTES || r == MAX_IMAGE_BYTES
  {
    if ext == "pdf" then MAX_PDF_BYTES else MAX_IMAGE_BYTES
  }
}
