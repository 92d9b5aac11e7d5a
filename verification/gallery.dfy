/** Building the known-face gallery from a directory of reference images
    (`load_known_faces`). */
module GalleryLoader {
  import opened Common
  import opened Media

  /** A directory entry: its file name and the encodings face_recognition finds
      in the loaded image (empty when it finds no face), or a file that
      `load_image_file` cannot load as an image and raises on. */
  datatype ImageFile = ImageFile(name: string, encodings: seq<Embedding>) | Unreadable(name: string)

  /** ASCII lower-casing, the part of `str.lower` that file extensions need. */
  function LowerChar(c: char): char {
    if 'A' <= c <= 'Z' then (c as int + 32) as char else c
  }

  function Lower(s: string): (r: string)
    ensures |r| == |s|
    decreases |s|
  {
    if s == [] then [] else [LowerChar(s[0])] + Lower(s[1..])
  }

  /** Lower-casing works character by character. */
  lemma {:induction false} LowerAt(s: string, i: nat)
    requires i < |s|
    ensures Lower(s)[i] == LowerChar(s[i])
    decreases i
  {
    if i > 0 {
      LowerAt(s[1..], i - 1);
    }
  }

  predicate EndsWith(s: string, suffix: string) {
    |suffix| <= |s| && s[|s| - |suffix|..] == suffix
  }

  /** The accepted extensions, compared against the lower-cased file name. */
  predicate IsImageExtension(ext: string) {
    ext == ".jpg" || ext == ".jpeg" || ext == ".png"
  }

  predicate HasImageExtension(name: string) {
    var l := Lower(name);
    EndsWith(l, ".jpg") || EndsWith(l, ".jpeg") || EndsWith(l, ".png")
  }

  /** `str.rfind('.')` as an option: the position of the last dot. */
  function LastDot(s: string): (r: Option<nat>)
    ensures r.Some? ==> r.value < |s| && s[r.value] == '.' && forall k :: r.value < k < |s| ==> s[k] != '.'
    ensures r.None? ==> forall k :: 0 <= k < |s| ==> s[k] != '.'
    decreases |s|
  {
    if s == [] then None
    else if s[|s| - 1] == '.' then Some(|s| - 1)
    else LastDot(s[..|s| - 1])
  }

  /** `os.path.splitext` of a bare file name: the extension runs from the last
      dot to the end, unless every character before that dot is itself a dot
      (`.png`, `..jpg`), in which case there is no extension. */
  function SplitExt(name: string): (string, string) {
    match LastDot(name)
    case None => (name, "")
    case Some(d) =>
      if exists k :: 0 <= k < d && name[k] != '.' then (name[..d], name[d..]) else (name, "")
  }

  /** Splitting loses nothing, and an extension is a dot followed by no other dot. */
  lemma SplitExtParts(name: string)
    ensures SplitExt(name).0 + SplitExt(name).1 == name
    ensures SplitExt(name).1 == [] || (SplitExt(name).1[0] == '.' && '.' !in SplitExt(name).1[1..])
  {
    match LastDot(name)
    case None =>
    case Some(d) =>
      if exists k :: 0 <= k < d && name[k] != '.' {
        assert name[..d] + name[d..] == name;
        var ext := name[d..];
        forall k | 0 <= k < |ext[1..]| ensures ext[1..][k] != '.' {
          assert ext[1..][k] == name[d + 1 + k];
        }
      }
  }

  /** The length of the image extension a name ends with. */
  function ImageExtensionLength(name: string): nat
    requires HasImageExtension(name)
  {
    if EndsWith(Lower(name), ".jpeg") then 5 else 4
  }

  /** Each accepted extension is a dot followed by letters. */
  lemma ExtensionShape(ext: string)
    requires IsImageExtension(ext)
    ensures |ext| > 0 && ext[0] == '.' && forall j :: 1 <= j < |ext| ==> ext[j] != '.'
  {
    if ext == ".jpeg" {
      assert ext[1] == 'j' && ext[2] == 'p' && ext[3] == 'e' && ext[4] == 'g';
    } else if ext == ".jpg" {
      assert ext[1] == 'j' && ext[2] == 'p' && ext[3] == 'g';
    } else {
      assert ext[1] == 'p' && ext[2] == 'n' && ext[3] == 'g';
    }
  }

  /** A position holding a dot with no dot after it is the last dot. */
  lemma LastDotAt(s: string, d: nat)
    requires d < |s| && s[d] == '.'
    requires forall k :: d < k < |s| ==> s[k] != '.'
    ensures LastDot(s) == Some(d)
  {
    var r := LastDot(s);
    assert r.Some?;
    assert d <= r.value;
    assert r.value <= d by {
      assert s[r.value] == '.';
    }
  }

  /** A lower-cased name ending in an accepted extension ends in exactly
      that extension, five characters for `.jpeg` and four otherwise. */
  lemma TailOf(l: string)
    requires EndsWith(l, ".jpg") || EndsWith(l, ".jpeg") || EndsWith(l, ".png")
    ensures IsImageExtension(l[|l| - (if EndsWith(l, ".jpeg") then 5 else 4)..])
  {
  }

  /** The lower-cased tail of a name with an image extension is that
      extension. */
  lemma LoweredTail(name: string)
    requires HasImageExtension(name)
    ensures IsImageExtension(Lower(name)[|name| - ImageExtensionLength(name)..])
  {
    TailOf(Lower(name));
  }

  /** In a name with an image extension, the last dot is the one that starts
      that extension. */
  lemma ImageExtensionAtLastDot(name: string)
    requires HasImageExtension(name)
    ensures LastDot(name) == Some(|name| - ImageExtensionLength(name))
  {
    ExtensionDots(name);
    LastDotAt(name, |name| - ImageExtensionLength(name));
  }

  /** The image extension of a name starts with a dot and holds no other. */
  lemma ExtensionDots(name: string)
    requires HasImageExtension(name)
    ensures var d := |name| - ImageExtensionLength(name);
      name[d] == '.' && forall k :: d < k < |name| ==> name[k] != '.'
  {
    var d := |name| - ImageExtensionLength(name);
    forall k | d <= k < |name| ensures (name[k] == '.') == (k == d) {
      DotInExtension(name, k);
    }
  }

  /** Within the image extension of a name, only its first character is a
      dot. */
  lemma DotInExtension(name: string, k: nat)
    requires HasImageExtension(name)
    requires |name| - ImageExtensionLength(name) <= k < |name|
    ensures (name[k] == '.') == (k == |name| - ImageExtensionLength(name))
  {
    var d := |name| - ImageExtensionLength(name);
    var l := Lower(name);
    var ext := l[d..];
    LoweredTail(name);
    ExtensionShape(ext);
    LowerAt(name, k);
    assert l[k] == ext[k - d] == LowerChar(name[k]);
  }

  /** The extension of a name with an image extension, lower-cased, is one
      of the accepted ones. */
  lemma ImageExtensionLowered(name: string)
    requires HasImageExtension(name)
    ensures IsImageExtension(Lower(name[|name| - ImageExtensionLength(name)..]))
  {
    var d := |name| - ImageExtensionLength(name);
    LoweredTail(name);
    LowerSuffix(name, d);
  }

  lemma {:induction false} LowerSuffix(s: string, d: nat)
    requires d <= |s|
    ensures Lower(s[d..]) == Lower(s)[d..]
    decreases d
  {
    if d > 0 {
      assert s[d..] == s[1..][d - 1..];
      LowerSuffix(s[1..], d - 1);
    }
  }

  /** For an image file whose stem is not all dots, the registered name is the
      file name with exactly its image extension removed. */
  lemma {:induction false} ImageRootStripsExtension(name: string)
    requires HasImageExtension(name)
    requires exists k :: 0 <= k < |name| - ImageExtensionLength(name) && name[k] != '.'
    ensures SplitExt(name).0 == name[..|name| - ImageExtensionLength(name)]
    ensures IsImageExtension(Lower(SplitExt(name).1))
  {
    ImageExtensionAtLastDot(name);
    ImageExtensionLowered(name);
  }

  /** An image file whose name before the extension is all dots (`.png`,
      `..jpeg`) has no extension for `splitext`, so it is registered under its
      whole name. */
  lemma {:induction false} HiddenImageKeepsWholeName(name: string)
    requires HasImageExtension(name)
    requires forall k :: 0 <= k < |name| - ImageExtensionLength(name) ==> name[k] == '.'
    ensures SplitExt(name) == (name, "")
  {
    ImageExtensionAtLastDot(name);
  }

  /** A file contributes to the gallery when its lower-cased name ends in an
      image extension and the detector finds at least one face in it. */
  predicate Contributes(f: ImageFile) {
    f.ImageFile? && HasImageExtension(f.name) && |f.encodings| > 0
  }

  /** Every file with an image extension loads: otherwise `load_image_file`
      raises and `load_known_faces` never returns. */
  predicate Loadable(files: seq<ImageFile>) {
    forall k :: 0 <= k < |files| && HasImageExtension(files[k].name) ==> files[k].ImageFile?
  }

  /** The contributing files, in listing order. */
  function Contributing(files: seq<ImageFile>): seq<ImageFile> {
    Filter(files, Contributes)
  }

  /** Exactly the image files with a detected face contribute. */
  lemma ContributingFiles(files: seq<ImageFile>, f: ImageFile)
    ensures f in Contributing(files) <==> f in files && f.ImageFile? && HasImageExtension(f.name) && |f.encodings| > 0
  {
    FilterMembership(files, Contributes, f);
  }

  /** The gallery encodings: the first encoding of each contributing file. */
  function KnownEncodings(dir: Option<seq<ImageFile>>): (r: seq<Embedding>)
    ensures dir.None? ==> r == []
    ensures dir.Some? ==> |r| == |Contributing(dir.value)|
  {
    if dir.None? then []
    else
      var c := Contributing(dir.value);
      seq(|c|, i requires 0 <= i < |c| => c[i].encodings[0])
  }

  /** The gallery names: each contributing file name without its extension. */
  function KnownNames(dir: Option<seq<ImageFile>>): (r: seq<string>)
    ensures dir.None? ==> r == []
    ensures dir.Some? ==> |r| == |Contributing(dir.value)|
  {
    if dir.None? then []
    else
      var c := Contributing(dir.value);
      seq(|c|, i requires 0 <= i < |c| => SplitExt(c[i].name).0)
  }

  /** One more file of the listing contributes itself or nothing. */
  lemma ContributingStep(files: seq<ImageFile>, i: nat)
    requires i < |files|
    ensures Contributing(files[..i + 1]) == Contributing(files[..i]) + if Contributes(files[i]) then [files[i]] else []
  {
    assert files[..i + 1] == files[..i] + [files[i]];
    FilterConcat(files[..i], [files[i]], Contributes);
    assert Filter([files[i]], Contributes) == if Contributes(files[i]) then [files[i]] else [];
  }

  /** The gallery of a listing one file longer: that file's entry, if it
      contributes one, follows the others. */
  lemma KnownStep(files: seq<ImageFile>, i: nat)
    requires i < |files|
    ensures KnownEncodings(Some(files[..i + 1]))
         == KnownEncodings(Some(files[..i])) + if Contributes(files[i]) then [files[i].encodings[0]] else []
    ensures KnownNames(Some(files[..i + 1]))
         == KnownNames(Some(files[..i])) + if Contributes(files[i]) then [SplitExt(files[i].name).0] else []
  {
    KnownEncodingsStep(files, i);
    KnownNamesStep(files, i);
  }

  lemma KnownEncodingsStep(files: seq<ImageFile>, i: nat)
    requires i < |files|
    ensures KnownEncodings(Some(files[..i + 1]))
         == KnownEncodings(Some(files[..i])) + if Contributes(files[i]) then [files[i].encodings[0]] else []
  {
    ContributingStep(files, i);
  }

  lemma KnownNamesStep(files: seq<ImageFile>, i: nat)
    requires i < |files|
    ensures KnownNames(Some(files[..i + 1]))
         == KnownNames(Some(files[..i])) + if Contributes(files[i]) then [SplitExt(files[i].name).0] else []
  {
    ContributingStep(files, i);
  }

  /** One more file keeps the listing loadable exactly when it is loadable
      itself. */
  lemma LoadableStep(files: seq<ImageFile>, i: nat)
    requires i < |files|
    ensures Loadable(files[..i + 1]) <==> Loadable(files[..i]) && (HasImageExtension(files[i].name) ==> files[i].ImageFile?)
  {
    assert files[..i + 1][i] == files[i];
    forall k | 0 <= k < i ensures files[..i + 1][k] == files[..i][k] {
    }
  }

  /** The loop of `load_known_faces` over the directory listing. */
  method LoadFiles(files: seq<ImageFile>) returns (r: Option<(seq<Embedding>, seq<string>)>)
    ensures r.None? <==> !Loadable(files)
    ensures r.Some? ==> r.value == (KnownEncodings(Some(files)), KnownNames(Some(files)))
  {
    var encodings: seq<Embedding>, names: seq<string> := [], [];
    for i := 0 to |files|
      invariant Loadable(files[..i])
      invariant encodings == KnownEncodings(Some(files[..i]))
      invariant names == KnownNames(Some(files[..i]))
    {
      var f := files[i];
      KnownStep(files, i);
      LoadableStep(files, i);
      if HasImageExtension(f.name) {
        if f.Unreadable? {
          LoadablePrefix(files, i + 1);
          return None;
        }
        if |f.encodings| > 0 {
          encodings := encodings + [f.encodings[0]];
          names := names + [SplitExt(f.name).0];
        }
      }
    }
    assert files[..|files|] == files;
    return Some((encodings, names));
  }

  /** A listing with an unloadable prefix is unloadable. */
  lemma LoadablePrefix(files: seq<ImageFile>, n: nat)
    requires n <= |files|
    ensures Loadable(files) ==> Loadable(files[..n])
  {
    if Loadable(files) {
      forall k | 0 <= k < n && HasImageExtension(files[..n][k].name) ensures files[..n][k].ImageFile? {
        assert files[..n][k] == files[k];
      }
    }
  }

  /** `load_known_faces`. `dir` is `None` when the directory does not exist;
      otherwise it lists the entries in `os.listdir` order. The two lists are
      built in parallel: the first encoding of each contributing file and its
      name without extension. `None` when a file with an image extension
      cannot be loaded: the exception escapes. */
  method LoadKnownFaces(dir: Option<seq<ImageFile>>) returns (r: Option<(seq<Embedding>, seq<string>)>)
    ensures r.None? <==> dir.Some? && !Loadable(dir.value)
    ensures r.Some? && dir.None? ==> r.value == ([], [])
    ensures r.Some? ==> |r.value.0| == |r.value.1|
    ensures r.Some? && dir.Some? ==>
      var c := Contributing(dir.value);
      && |r.value.0| == |c|
      && forall i :: 0 <= i < |c| ==> r.value.0[i] == c[i].encodings[0] && r.value.1[i] == SplitExt(c[i].name).0
    ensures r.Some? ==> r.value == (KnownEncodings(dir), KnownNames(dir))
  {
    if dir.None? {
      return Some(([], []));
    }
    r := LoadFiles(dir.value);
  }
}
