/**
 * `os.path.splitext` on POSIX paths: the separator is '/', the extension separator '.',
 * and dots that open the last path component do not start an extension.
 */
module PosixPath {

  /** `s.rfind(c)`: the last index of `c` in `s`, or -1. */
  function RFind(s: string, c: char): (r: int)
    ensures -1 <= r < |s|
    ensures r >= 0 ==> s[r] == c
    ensures forall j :: r < j < |s| ==> s[j] != c
  {
    if s == [] then -1 else if s[|s| - 1] == c then |s| - 1 else RFind(s[..|s| - 1], c)
  }

  /** (root, ext) with `root + ext == p`; `ext` is empty or starts at the last dot of the last component. */
  function SplitExt(p: string): (r: (string, string))
    ensures r.0 + r.1 == p
    ensures r.1 == [] || (r.1[0] == '.' && forall i :: 1 <= i < |r.1| ==> r.1[i] != '.' && r.1[i] != '/')
  {
    var sepIndex := RFind(p, '/');
    var dotIndex := RFind(p, '.');
    if dotIndex > sepIndex && exists k :: sepIndex < k < dotIndex && p[k] != '.' then
      (p[..dotIndex], p[dotIndex..])
    else
      (p, [])
  }

  /**
   * Position `i` starts an extension of `p`: it holds the last dot, nothing after it is a
   * dot or a separator, and the last component has a character other than '.' before it.
   */
  ghost predicate ExtensionAt(p: string, i: int) {
    && 0 <= i < |p| && p[i] == '.'
    && (forall j :: i < j < |p| ==> p[j] != '.' && p[j] != '/')
    && exists k :: 0 <= k < i && p[k] != '.' && forall j :: k <= j < i ==> p[j] != '/'
  }

  /** `SplitExt` splits exactly at the start of an extension, and only when there is one. */
  lemma SplitExtAtExtension(p: string)
    ensures SplitExt(p).1 != [] <==> exists i :: ExtensionAt(p, i)
    ensures forall i :: ExtensionAt(p, i) ==> SplitExt(p) == (p[..i], p[i..])
  {
    var sepIndex := RFind(p, '/');
    var dotIndex := RFind(p, '.');
    forall i | ExtensionAt(p, i) ensures SplitExt(p) == (p[..i], p[i..]) {
      assert dotIndex == i;
      var k :| 0 <= k < i && p[k] != '.' && forall j :: k <= j < i ==> p[j] != '/';
      assert sepIndex < k;
    }
    if SplitExt(p).1 != [] {
      var k :| sepIndex < k < dotIndex && p[k] != '.';
      assert ExtensionAt(p, dotIndex);
    }
  }

  /** The worked case of the HEIC conversion: only the final extension is split off. */
  lemma SplitExtExample()
    ensures SplitExt("IMG_001.HEIC") == ("IMG_001", ".HEIC")
  {
    var p := "IMG_001.HEIC";
    ExampleExtension(p);
    SplitExtAtExtension(p);
    assert p[..7] == "IMG_001" && p[7..] == ".HEIC";
  }

  lemma ExampleExtension(p: string)
    requires p == "IMG_001.HEIC"
    ensures ExtensionAt(p, 7)
  {
    assert p[7] == '.';
    assert forall j :: 7 < j < |p| ==> p[j] != '.' && p[j] != '/';
    assert p[0] != '.' && forall j :: 0 <= j < 7 ==> p[j] != '/';
  }

  /** A name that is only a dot-file has no extension. */
  lemma SplitExtDotFile()
    ensures SplitExt(".heic") == (".heic", "")
  {
    var p := ".heic";
    assert p[..4] == ".hei" && p[..4][..3] == ".he" && p[..4][..3][..2] == ".h" && p[..4][..3][..2][..1] == ".";
    assert RFind(".", '.') == 0;
    assert RFind(p, '.') == 0;
    assert RFind(p, '/') == -1;
  }
}
