/**
 * `FileUtils.stripExtension` of the unboxing worker
 * (utils/FileUtils.java): drops the final `.ext` of a file name.
 */
module FileUtils {
  import opened JavaStrings

  /**
   * `stripExtension(name)`: the name before its last `.`, unless there is
   * no `.`, the last one is the first character (a hidden file) or the last
   * character (an empty extension), when the name is returned unchanged.
   */
  function StripExtension(name: string): (r: string)
    ensures StartsWith(name, r)
    ensures r == name <==> name == "" || '.' !in name[1..] || name[|name| - 1] == '.'
    ensures r != name ==> r != "" && |r| + 1 < |name| && name[|r|] == '.' && '.' !in name[|r| + 1..]
  {
    var lastDotIndex := LastIndexOf(name, '.');
    if lastDotIndex == -1 || lastDotIndex == 0 || lastDotIndex == |name| - 1 then name
    else
      assert '.' in name[1..] by {
        assert name[1..][lastDotIndex - 1] == '.';
      }
      name[..lastDotIndex]
  }

  // ---------------------------------------------------------------------
  // Lemmas

  /** Partner of `StripExtension`: appending `.ext` to a non-empty stem and stripping gives the stem back. */
  lemma StripAppendedExtension(stem: string, ext: string)
    requires stem != "" && ext != "" && '.' !in ext
    ensures StripExtension(stem + "." + ext) == stem
  {
    var name := stem + "." + ext;
    var i := LastIndexOf(name, '.');
    assert name[|stem|] == '.';
    assert forall j :: |stem| < j < |name| ==> name[j] == ext[j - |stem| - 1];
    assert i == |stem|;
    assert name[..i] == stem;
  }

  /** Only the final extension goes: `a.b.c` becomes `a.b`. */
  lemma StripsOnlyLastExtension()
    ensures StripExtension("a.b.c") == "a.b"
  {
    StripAppendedExtension("a.b", "c");
    assert "a.b" + "." + "c" == "a.b.c";
  }

  /** A hidden file, a trailing dot and a name without a dot are kept whole. */
  lemma KeepsNamesWithoutExtension()
    ensures StripExtension(".bashrc") == ".bashrc"
    ensures StripExtension("video.") == "video."
    ensures StripExtension("video") == "video"
  {
    assert '.' !in ".bashrc"[1..] by {
      assert ".bashrc"[1..] == "bashrc";
    }
    assert '.' !in "video"[1..] by {
      assert "video"[1..] == "ideo";
    }
  }

  /**
   * Stripping and appending `.ext` gives the name back exactly when the name
   * already is a non-empty stem followed by `.ext`.
   */
  lemma SameNameAfterNewExtension(name: string, ext: string)
    requires ext != "" && '.' !in ext
    ensures StripExtension(name) + "." + ext == name <==> EndsWith(name, "." + ext) && |name| > |ext| + 1
  {
    var r := StripExtension(name);
    if r + "." + ext == name {
      assert name[|r|..] == "." + ext;
    }
    if EndsWith(name, "." + ext) && |name| > |ext| + 1 {
      var stem := name[..|name| - |ext| - 1];
      assert name == stem + "." + ext;
      StripAppendedExtension(stem, ext);
    }
  }
}
