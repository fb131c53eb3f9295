/**
 * Tag-file names derived from image names: the legacy `.txt` file and the
 * structured `.ctf` file. Both replace what `/\.[^.]+$/` matches, a final
 * '.' followed by at least one character that is not a '.', running to the
 * end of the name; a name without such a suffix is returned unchanged.
 */
module FileNames {
  import opened Wrappers

  const TxtExtension: string := ".txt"
  const CtfExtension: string := ".ctf"

  /** The position of the last '.' of `s`, if there is one. */
  function LastDot(s: string): (r: Option<nat>)
    ensures r.None? <==> '.' !in s
    ensures r.Some? ==> r.value < |s| && s[r.value] == '.' && '.' !in s[r.value + 1..]
  {
    if s == [] then None
    else if s[|s| - 1] == '.' then Some(|s| - 1)
    else
      var r := LastDot(s[..|s| - 1]);
      assert s == s[..|s| - 1] + [s[|s| - 1]];
      r
  }

  /** The name has a part the extension pattern matches. */
  predicate HasExtension(name: string)
  {
    LastDot(name).Some? && LastDot(name).value < |name| - 1
  }

  /** `/\.[^.]+$/` matches `name` from position k: a '.', then one or more characters other than '.', to the end. */
  predicate MatchesAt(name: string, k: int)
  {
    0 <= k < |name| - 1 && name[k] == '.' && '.' !in name[k + 1..]
  }

  /** The pattern can only match at the last dot of a name. */
  lemma MatchIsLastDot(name: string)
    ensures forall k :: MatchesAt(name, k) ==> LastDot(name) == Some(k) && HasExtension(name)
  {
    forall k | MatchesAt(name, k)
      ensures LastDot(name) == Some(k)
    {
      assert name[k] in name;
    }
  }

  /** `name.replace(/\.[^.]+$/, ext)`, found through the last dot. */
  function ReplaceExtension(name: string, ext: string): string
  {
    match LastDot(name)
    case Some(k) => if k < |name| - 1 then name[..k] + ext else name
    case None => name
  }

  /**
   * The replacement agrees with the pattern: where it matches, the match is
   * replaced by `ext`; where it matches nowhere, the name is unchanged.
   */
  lemma ReplaceExtensionMatches(name: string, ext: string)
    ensures forall k :: MatchesAt(name, k) ==> ReplaceExtension(name, ext) == name[..k] + ext
    ensures (forall k :: !MatchesAt(name, k)) ==> ReplaceExtension(name, ext) == name
  {
    MatchIsLastDot(name);
    if HasExtension(name) {
      assert MatchesAt(name, LastDot(name).value);
    }
  }

  function ImageNameToTraditionalTagFileName(imageName: string): string
  {
    ReplaceExtension(imageName, TxtExtension)
  }

  function ImageNameToCtFileName(imageName: string): string
  {
    ReplaceExtension(imageName, CtfExtension)
  }

  /** The last dot of `base + "." + suffix` is the one after `base` when `suffix` has none. */
  lemma LastDotOfSplit(base: string, suffix: string)
    requires '.' !in suffix
    ensures LastDot(base + "." + suffix) == Some(|base|)
  {
    var s := base + "." + suffix;
    assert s[|base|] == '.';
    assert s[|base| + 1..] == suffix;
  }

  /** A name made of a base, a '.', and a non-empty dot-free suffix gets `ext` in place of '.' and suffix. */
  lemma ReplaceExtensionOfSplit(base: string, suffix: string, ext: string)
    requires suffix != [] && '.' !in suffix
    ensures HasExtension(base + "." + suffix)
    ensures ReplaceExtension(base + "." + suffix, ext) == base + ext
  {
    LastDotOfSplit(base, suffix);
    assert (base + "." + suffix)[..|base|] == base;
  }

  /**
   * Images that differ only in their extension (`cat.png` and `cat.jpg`)
   * share both tag files.
   */
  lemma SharedTagFileNames(base: string, suffix1: string, suffix2: string)
    requires suffix1 != [] && '.' !in suffix1 && suffix2 != [] && '.' !in suffix2
    ensures ImageNameToTraditionalTagFileName(base + "." + suffix1)
         == ImageNameToTraditionalTagFileName(base + "." + suffix2) == base + TxtExtension
    ensures ImageNameToCtFileName(base + "." + suffix1)
         == ImageNameToCtFileName(base + "." + suffix2) == base + CtfExtension
  {
    ReplaceExtensionOfSplit(base, suffix1, TxtExtension);
    ReplaceExtensionOfSplit(base, suffix2, TxtExtension);
    ReplaceExtensionOfSplit(base, suffix1, CtfExtension);
    ReplaceExtensionOfSplit(base, suffix2, CtfExtension);
  }

  /** Every name with an extension splits that way, at its last dot. */
  lemma HasExtensionSplits(name: string)
    requires HasExtension(name)
    ensures var k := LastDot(name).value;
      && name == name[..k] + "." + name[k + 1..]
      && name[k + 1..] != [] && '.' !in name[k + 1..]
  {
    var k := LastDot(name).value;
    assert [name[k]] == ".";
    assert name[..k] + [name[k]] + name[k + 1..] == name[..k + 1] + name[k + 1..];
  }

  /** No dot at all, or a trailing dot: the pattern does not match and the name is unchanged. */
  lemma ReplaceExtensionWithout(name: string, ext: string)
    requires '.' !in name || name[|name| - 1] == '.'
    ensures !HasExtension(name)
    ensures ReplaceExtension(name, ext) == name
  {
  }

  /** A name without extension is one with no dot at all or with a trailing dot. */
  lemma NoExtensionCases(name: string)
    requires !HasExtension(name)
    ensures '.' !in name || name[|name| - 1] == '.'
  {
  }

  /**
   * Deriving twice is deriving once, for any extension of the form '.' +
   * dot-free characters; the derived name has an extension exactly when the
   * original has one.
   */
  lemma ReplaceExtensionIdempotent(name: string, ext: string)
    requires |ext| >= 2 && ext[0] == '.' && '.' !in ext[1..]
    ensures ReplaceExtension(ReplaceExtension(name, ext), ext) == ReplaceExtension(name, ext)
    ensures HasExtension(ReplaceExtension(name, ext)) <==> HasExtension(name)
  {
    if HasExtension(name) {
      var k := LastDot(name).value;
      var base := name[..k];
      assert ReplaceExtension(name, ext) == base + "." + ext[1..] by {
        assert ext == "." + ext[1..];
      }
      ReplaceExtensionOfSplit(base, ext[1..], ext);
    }
  }

  /**
   * The legacy tag-file name of an image: the match of the pattern replaced
   * by ".txt", or the image name itself where the pattern does not match.
   * Deriving it again changes nothing, and it has an extension exactly when
   * the image name has one.
   */
  lemma TraditionalTagFileNameSpec(imageName: string)
    ensures var t := ImageNameToTraditionalTagFileName(imageName);
      && (forall k :: MatchesAt(imageName, k) ==> t == imageName[..k] + TxtExtension)
      && ((forall k :: !MatchesAt(imageName, k)) ==> t == imageName)
      && ImageNameToTraditionalTagFileName(t) == t
      && (HasExtension(t) <==> HasExtension(imageName))
  {
    ReplaceExtensionMatches(imageName, TxtExtension);
    assert '.' !in TxtExtension[1..];
    ReplaceExtensionIdempotent(imageName, TxtExtension);
  }

  /**
   * The structured tag-file name of an image: the match of the pattern
   * replaced by ".ctf", or the image name itself where the pattern does not
   * match. Deriving it again changes nothing, and it has an extension
   * exactly when the image name has one.
   */
  lemma CtFileNameSpec(imageName: string)
    ensures var c := ImageNameToCtFileName(imageName);
      && (forall k :: MatchesAt(imageName, k) ==> c == imageName[..k] + CtfExtension)
      && ((forall k :: !MatchesAt(imageName, k)) ==> c == imageName)
      && ImageNameToCtFileName(c) == c
      && (HasExtension(c) <==> HasExtension(imageName))
  {
    ReplaceExtensionMatches(imageName, CtfExtension);
    assert '.' !in CtfExtension[1..];
    ReplaceExtensionIdempotent(imageName, CtfExtension);
  }

  /**
   * The legacy and the structured tag file share a name exactly when the
   * image name has no extension, and then both are the image name itself.
   */
  lemma TagFileNamesCollide(imageName: string)
    ensures ImageNameToTraditionalTagFileName(imageName) == ImageNameToCtFileName(imageName)
        <==> !HasExtension(imageName)
    ensures !HasExtension(imageName) ==> ImageNameToCtFileName(imageName) == imageName
  {
    if HasExtension(imageName) {
      var k := LastDot(imageName).value;
      var t := ImageNameToTraditionalTagFileName(imageName);
      var c := ImageNameToCtFileName(imageName);
      assert t[k + 1] == 't' && c[k + 1] == 'c';
    }
  }
}
