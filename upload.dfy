/** The upload gate: `ALLOWED_EXTENSIONS` and `allowed_file` of main.py. */
module Upload {
  import opened Wrappers
  import opened Text

  /** The audio formats the service accepts, lower-case and without the dot. */
  const AllowedExtensions: set<string> := {"mp3", "wav", "ogg", "m4a", "flac", "aac", "wma"}

  /** `s.rsplit('.', 1)` for a name that holds a dot: the text before the last dot and
      the text after it; `None` when there is no dot to split on. */
  function RSplitDot(s: string): (r: Option<(string, string)>)
    ensures r.None? <==> '.' !in s
    ensures r.Some? ==> s == r.value.0 + "." + r.value.1 && '.' !in r.value.1
  {
    if s == [] then None
    else
      var init := s[..|s| - 1];
      assert s == init + [s[|s| - 1]];
      if s[|s| - 1] == '.' then Some((init, ""))
      else match RSplitDot(init)
        case None => None
        case Some((head, tail)) => Some((head, tail + [s[|s| - 1]]))
  }

  /** `allowed_file(filename)`: the name holds a dot and the lower-cased text after its
      last dot is an allowed extension. */
  function AllowedFile(filename: string): (r: bool)
    ensures r <==> '.' in filename && Lower(RSplitDot(filename).value.1) in AllowedExtensions
    ensures r ==> filename != []
  {
    match RSplitDot(filename)
    case None => false
    case Some((_, ext)) => Lower(ext) in AllowedExtensions
  }

  /** Splitting at the last dot recovers any name built as head + "." + a dot-free tail. */
  lemma {:induction false} RSplitDotOfJoin(head: string, tail: string)
    requires '.' !in tail
    ensures RSplitDot(head + "." + tail) == Some((head, tail))
    decreases |tail|
  {
    var s := head + "." + tail;
    if tail == [] {
      assert s[..|s| - 1] == head;
    } else {
      var t' := tail[..|tail| - 1];
      assert s[..|s| - 1] == head + "." + t';
      RSplitDotOfJoin(head, t');
      assert t' + [s[|s| - 1]] == tail;
    }
  }

  /** Only the text after the final dot decides, and it is compared without regard to
      case: `p.e` is accepted exactly when lower-cased `e` is an allowed extension. */
  lemma AllowedFileByExtension(head: string, ext: string)
    requires '.' !in ext
    ensures AllowedFile(head + "." + ext) <==> Lower(ext) in AllowedExtensions
  {
    RSplitDotOfJoin(head, ext);
  }

  /** A name without a dot is always rejected. */
  lemma NoDotRejected(filename: string)
    requires '.' !in filename
    ensures !AllowedFile(filename)
  {
  }

  /** Changing the case of the final extension never changes the verdict. */
  lemma AllowedFileIgnoresCase(head: string, ext: string)
    requires '.' !in ext
    ensures AllowedFile(head + "." + Lower(ext)) == AllowedFile(head + "." + ext)
  {
    LowerKeepsDots(ext);
    LowerIdempotent(ext);
    AllowedFileByExtension(head, ext);
    AllowedFileByExtension(head, Lower(ext));
  }

  /** Every listed format is accepted, whatever precedes the dot. */
  lemma EveryAllowedExtensionPasses(head: string, ext: string)
    requires ext in AllowedExtensions
    ensures AllowedFile(head + "." + ext)
  {
    assert '.' !in ext && Lower(ext) == ext by {
      assert forall i :: 0 <= i < |ext| ==> ext[i] != '.' && !('A' <= ext[i] <= 'Z');
    }
    AllowedFileByExtension(head, ext);
  }

  /** An allowed extension before the last dot does not help. */
  lemma InnerExtensionRejected()
    ensures !AllowedFile("a.wav.exe")
  {
    var ext := "exe";
    assert Lower(ext) == ext by {
      forall i | 0 <= i < |ext| ensures Lower(ext)[i] == ext[i] { }
    }
    assert ext !in AllowedExtensions by {
      assert ext[0] == 'e';
    }
    assert "a.wav" + "." + ext == "a.wav.exe";
    AllowedFileByExtension("a.wav", ext);
  }

  /** An upper-case final extension is accepted. */
  lemma UpperCaseExtensionAccepted()
    ensures AllowedFile("a.exe.MP3")
  {
    assert "a.exe" + "." + "MP3" == "a.exe.MP3";
    assert Lower("MP3") == "mp3";
    AllowedFileByExtension("a.exe", "MP3");
  }

  /** A name that is only a dot and an extension is accepted. */
  lemma BareExtensionAccepted()
    ensures AllowedFile(".mp3")
  {
    assert "" + "." + "mp3" == ".mp3";
    EveryAllowedExtensionPasses("", "mp3");
  }

  /** A name ending in a dot has an empty extension and is rejected. */
  lemma TrailingDotRejected()
    ensures !AllowedFile("a.")
  {
    assert "a" + "." + "" == "a.";
    AllowedFileByExtension("a", "");
  }
}
