/**
 * `FileProcessor.allowed_file`, the extension test `rsplit('.', 1)[1].lower()`, and
 * the test `save_file` makes before it writes anything. The stored file's path
 * (`uuid4`, `secure_filename` and `os.path.join`) is a parameter, and the write itself
 * is the path being added to the folder's list of saved files.
 */
module FileProcessor {
  import opened Wrappers
  import opened Text

  /** `allowed_extensions`. */
  const AllowedExtensions: set<string> := {"csv", "xlsx", "xls"}

  /** The position of the last '.' in `s`, -1 when there is none. */
  function LastDot(s: string): (r: int)
    ensures -1 <= r < |s|
    ensures r >= 0 ==> s[r] == '.'
    ensures forall i :: r < i < |s| ==> s[i] != '.'
  {
    if s == [] then -1
    else if s[|s| - 1] == '.' then |s| - 1
    else LastDot(s[..|s| - 1])
  }

  /** `filename.rsplit('.', 1)[1]`: the text after the last '.'. */
  function Extension(filename: string): (r: string)
    requires '.' in filename
    ensures |r| < |filename| && r == filename[|filename| - |r|..] && filename[|filename| - |r| - 1] == '.'
    ensures '.' !in r
  {
    filename[LastDot(filename) + 1..]
  }

  /** `allowed_file`. */
  predicate AllowedFile(filename: string)
  {
    '.' in filename && Lower(Extension(filename)) in AllowedExtensions
  }

  /** The extension is the part after the last dot, however many dots come before it. */
  lemma ExtensionAfterLastDot(base: string, ext: string)
    requires '.' !in ext
    ensures '.' in base + "." + ext
    ensures Extension(base + "." + ext) == ext
  {
    var s := base + "." + ext;
    assert s[|base|] == '.';
    assert s[|base| + 1..] == ext;
  }

  /** A name is accepted exactly when, lowercased, its last extension is csv, xlsx or xls. */
  lemma AllowedByExtension(base: string, ext: string)
    requires '.' !in ext
    ensures AllowedFile(base + "." + ext) <==> Lower(ext) in AllowedExtensions
  {
    ExtensionAfterLastDot(base, ext);
  }

  /** Every accepted name is some name, a dot, and an allowed extension with no dot in it. */
  lemma AllowedFileSplits(filename: string)
    requires AllowedFile(filename)
    ensures var d := LastDot(filename);
      && 0 <= d && filename == filename[..d] + "." + Extension(filename)
      && '.' !in Extension(filename) && Lower(Extension(filename)) in AllowedExtensions
  {
    var d := LastDot(filename);
    var ext := Extension(filename);
    assert filename == filename[..d] + "." + ext;
    forall i | 0 <= i < |ext|
      ensures ext[i] != '.'
    {
      assert ext[i] == filename[d + 1 + i];
    }
  }

  /** A name without a dot is refused. */
  lemma NoDotRejected(filename: string)
    requires '.' !in filename
    ensures !AllowedFile(filename)
  {
  }

  /** Every allowed extension starts with 'c' or 'x'. */
  lemma OutsideAllowed(e: string)
    requires e == [] || (e[0] != 'c' && e[0] != 'x')
    ensures e !in AllowedExtensions
  {
    assert "csv"[0] == 'c' && "xlsx"[0] == 'x' && "xls"[0] == 'x';
  }

  /** Only the last extension counts, in any case: "a.txt.CSV" is accepted... */
  lemma LastExtensionUpperCase()
    ensures AllowedFile("a.txt.CSV")
  {
    AllowedByExtension("a.txt", "CSV");
    assert "a.txt" + "." + "CSV" == "a.txt.CSV";
    assert Lower("CSV") == "csv" by {
      assert LowerChar('C') == 'c' && LowerChar('S') == 's' && LowerChar('V') == 'v';
    }
  }

  /** ...and "a.csv.txt" is refused. */
  lemma EarlierExtensionIgnored()
    ensures !AllowedFile("a.csv.txt")
  {
    AllowedByExtension("a.csv", "txt");
    assert "a.csv" + "." + "txt" == "a.csv.txt";
    OutsideAllowed(Lower("txt"));
  }

  /** A trailing dot leaves an empty extension, refused; a bare ".csv" is accepted. */
  lemma DotEdges()
    ensures !AllowedFile("a.")
    ensures AllowedFile(".csv")
  {
    AllowedByExtension("a", "");
    assert "a" + "." + "" == "a.";
    AllowedByExtension("", "csv");
    assert "" + "." + "csv" == ".csv";
    assert Lower("csv") == "csv";
  }

  /** PDF uploads are refused, whatever the case of the extension. */
  lemma PdfRejected(base: string, ext: string)
    requires Lower(ext) == "pdf"
    ensures !AllowedFile(base + "." + ext)
  {
    assert '.' !in ext;
    AllowedByExtension(base, ext);
  }

  datatype UploadError = FileTypeNotAllowed

  /** The upload folder, as the list of the paths written into it. */
  class UploadFolder {
    var saved: seq<string>

    constructor ()
      ensures saved == []
    {
      saved := [];
    }

    /**
     * `save_file`: a file whose name is not allowed raises before anything is written;
     * an allowed one is written at `path` and its path returned.
     */
    method SaveFile(filename: string, path: string) returns (r: Result<string, UploadError>)
      modifies this
      ensures !AllowedFile(filename) ==> r == Err(FileTypeNotAllowed) && saved == old(saved)
      ensures AllowedFile(filename) ==> r == Ok(path) && saved == old(saved) + [path]
    {
      if !AllowedFile(filename) {
        return Err(FileTypeNotAllowed);
      }
      saved := saved + [path];
      r := Ok(path);
    }
  }
}
