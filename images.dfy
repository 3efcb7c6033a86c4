/** `isImageFile` of src/libs/Diff.js, the image filter of the comparison:
    files whose extension names an image format are skipped before matching. */
module Images {
  import opened Paths

  /** The recognised image extensions, lower-case and with their leading dot. */
  const ImageExtensions: seq<string> := [".jpg", ".jpeg", ".png", ".gif", ".bmp", ".svg", ".ico"]

  /** `isImageFile`: the lower-cased extension of the path's last component is
      one of the image extensions. */
  predicate IsImageFile(p: Path)
  {
    ToLower(ExtName(Basename(p))) in ImageExtensions
  }

  /** An image's last component has an extension of at least four characters
      after a non-empty stem. */
  lemma ImageHasExtension(p: Path)
    ensures IsImageFile(p) ==> 4 <= |ExtName(Basename(p))| < |Basename(p)|
  {
    ExtensionShape(ToLower(ExtName(Basename(p))));
  }

  /** Each image extension is a '.' followed by at least three characters,
      none of them a '.'. */
  lemma ExtensionShape(e: string)
    ensures e in ImageExtensions ==> |e| >= 4 && e[0] == '.' && forall i :: 0 < i < |e| ==> e[i] != '.'
  {
  }

  /** Lower-casing leaves the dots of a name where they are. */
  lemma LowerKeepsDots(s: string)
    ensures forall i :: 0 <= i < |s| ==> (ToLower(s)[i] == '.' <==> s[i] == '.')
  {
  }

  lemma {:induction false} LastDotOfLower(s: string)
    ensures LastDot(ToLower(s)) == LastDot(s)
  {
    LowerKeepsDots(s);
  }

  /** The extension of a lower-cased name is the lower-cased extension. */
  lemma {:induction false} ExtNameOfLower(name: string)
    ensures ExtName(ToLower(name)) == ToLower(ExtName(name))
  {
    LastDotOfLower(name);
    var d := LastDot(name);
    var lower := ToLower(name);
    if lower == ".." {
      assert name[0] == '.' && name[1] == '.' by { LowerKeepsDots(name); }
      assert name == "..";
    } else if d > 0 && name != ".." {
      assert lower[d..] == ToLower(name[d..]);
    }
  }

  lemma {:induction false} LowerIdempotent(s: string)
    ensures ToLower(ToLower(s)) == ToLower(s)
  {
  }

  /** Whether a file counts as an image does not depend on the case of its name:
      "LOGO.PNG" is skipped just as "logo.png" is. */
  lemma {:induction false} ImageIgnoresCase(dir: Path, name: string)
    ensures IsImageFile(dir + [name]) == IsImageFile(dir + [ToLower(name)])
  {
    assert Basename(dir + [name]) == name;
    assert Basename(dir + [ToLower(name)]) == ToLower(name);
    ExtNameOfLower(name);
    LowerIdempotent(ExtName(name));
  }

  /** A non-empty stem followed by a '.' and no further '.' has that suffix as
      its extension. */
  lemma {:induction false} ExtNameOfSuffix(stem: string, ext: string)
    requires |stem| > 0 && |ext| > 1 && ext[0] == '.'
    requires forall i :: 0 < i < |ext| ==> ext[i] != '.'
    ensures ExtName(stem + ext) == ext
  {
    var name := stem + ext;
    assert LastDot(name) == |stem| by {
      assert name[|stem|] == '.';
      assert forall i :: |stem| < i < |name| ==> name[i] == ext[i - |stem|];
    }
    assert name[|stem|..] == ext;
  }

  /** A name made of a non-empty stem and an image extension, in any case, is an image. */
  lemma {:induction false} ImageByExtension(dir: Path, stem: string, ext: string)
    requires |stem| > 0
    requires ToLower(ext) in ImageExtensions
    ensures IsImageFile(dir + [stem + ext])
  {
    assert |ext| > 1 && ext[0] == '.' && forall i :: 0 < i < |ext| ==> ext[i] != '.' by {
      ExtensionShape(ToLower(ext));
      LowerKeepsDots(ext);
    }
    ExtNameOfSuffix(stem, ext);
    BasenameOfJoin(dir, stem + ext);
  }

  /** A name without a '.' after its first character has no extension, so it is
      never an image: neither "png" nor the hidden file ".png". */
  lemma {:induction false} NoExtensionIsNotImage(dir: Path, name: string)
    requires forall i :: 0 < i < |name| ==> name[i] != '.'
    ensures !IsImageFile(dir + [name])
  {
    assert Basename(dir + [name]) == name;
    assert ExtName(name) == "";
    assert ToLower("") == "";
  }
}
