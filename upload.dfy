/**
 * Upload acceptance (`api_upload`): the `.pdf` check on the uploaded file
 * name, the `original_name` default, the token taken from a random UUID,
 * and the shareable link.
 */
module Upload {
  import opened Wrappers
  import opened Text

  /**
   * The file-name test of the upload: its lower-cased form ends with ".pdf",
   * that is, the name has at least four characters and the last four
   * lower-case to ".pdf".
   */
  predicate IsPdfName(filename: string)
    ensures IsPdfName(filename) <==> |filename| >= 4 && Lower(filename[|filename| - 4..]) == ".pdf"
  {
    if |filename| >= 4 then LowerSuffix(filename, |filename| - 4); EndsWith(Lower(filename), ".pdf")
    else EndsWith(Lower(filename), ".pdf")
  }

  /** The letter case of the extension does not matter; what follows it does. */
  lemma IsPdfNameExamples()
    ensures IsPdfName("Proof.PDF")
    ensures !IsPdfName("proof.pdf.exe")
  {
    assert "Proof.PDF"[5..] == ".PDF";
    assert LowerChar('P') == 'p' && LowerChar('D') == 'd' && LowerChar('F') == 'f';
    assert Lower(".PDF") == ".pdf";
    assert "proof.pdf.exe"[9..] == ".exe";
    assert Lower(".exe")[1] == 'e';
  }

  /**
   * What the upload request carries: the file name of the `file` part
   * (None when the part is missing), and the `original_name` form field
   * (None when absent).
   */
  datatype UploadForm = UploadForm(file: Option<string>, originalName: Option<string>)

  /**
   * The name the record will carry, or None when the upload is refused:
   * a missing file, a file with an empty name and a name not ending in
   * ".pdf" are refused; otherwise `original_name` defaults to the file name.
   */
  function AcceptedName(form: UploadForm): (r: Option<string>)
    ensures r.Some? <==> form.file.Some? && IsPdfName(form.file.value)
    ensures r.Some? ==> r.value == form.originalName.GetOr(form.file.value)
  {
    match form.file
    case None => None
    case Some(filename) =>
      if filename == "" || !IsPdfName(filename) then None
      else Some(form.originalName.GetOr(filename))
  }

  predicate IsLowerHex(c: char) {
    '0' <= c <= '9' || 'a' <= c <= 'f'
  }

  /** What `uuid4().hex` produces: 32 lower-case hexadecimal digits. */
  predicate IsUuidHex(h: string) {
    |h| == 32 && forall i :: 0 <= i < |h| ==> IsLowerHex(h[i])
  }

  /** An upload token: 12 lower-case hexadecimal digits. */
  predicate IsToken(t: string) {
    |t| == 12 && forall i :: 0 <= i < |t| ==> IsLowerHex(t[i])
  }

  /** The token is the first twelve digits of the UUID. */
  function TokenOf(uuidHex: string): (t: string)
    requires IsUuidHex(uuidHex)
    ensures IsToken(t) && StartsWith(uuidHex, t)
  {
    uuidHex[..12]
  }

  /** The BASE_URL used when none is configured. */
  const DefaultBaseUrl := "http://127.0.0.1:5000"

  /** The path segment the shareable link puts before the token. */
  const ProofPath := "/proof/"

  /** The shareable link returned for an upload. */
  function ShareUrl(baseUrl: string, token: string): (url: string)
    ensures StartsWith(url, baseUrl + ProofPath) && EndsWith(url, token)
    ensures |url| == |baseUrl| + |ProofPath| + |token|
  {
    baseUrl + ProofPath + token
  }

  /** Reads the token back out of a shareable link. */
  function TokenOfUrl(baseUrl: string, url: string): Option<string> {
    var prefix := baseUrl + ProofPath;
    if StartsWith(url, prefix) then Some(url[|prefix|..]) else None
  }

  /** The link identifies its token: reading it back yields the token. */
  lemma ShareUrlRoundTrip(baseUrl: string, token: string)
    ensures TokenOfUrl(baseUrl, ShareUrl(baseUrl, token)) == Some(token)
  {
    var url := ShareUrl(baseUrl, token);
    assert url[|baseUrl + ProofPath|..] == token;
  }

  /** Distinct tokens give distinct links. */
  lemma ShareUrlInjective(baseUrl: string, t1: string, t2: string)
    requires ShareUrl(baseUrl, t1) == ShareUrl(baseUrl, t2)
    ensures t1 == t2
  {
    ShareUrlRoundTrip(baseUrl, t1);
    ShareUrlRoundTrip(baseUrl, t2);
  }
}
