/**
 * Where the relay keeps a user's files (GetUserMainFolder, GetUserImageDir,
 * GetUserFileDir, GetUserDataBaseFileName) and the file helper's path
 * splitting that the relay relies on. Each per-user path is built from the
 * helper's current directory and the user's name, and is empty when the
 * name is unknown (empty).
 */
module UserPaths {

  /** Path separator used by the relay when it builds paths. */
  const SEP: char := '\\'

  function MainFolder(curDir: string, name: string): (p: string)
    ensures p == "" <==> name == ""
    ensures name != "" ==> p[|p| - 1] == SEP
  {
    if name == "" then "" else curDir + name + [SEP]
  }

  function ImageDir(curDir: string, name: string): (p: string)
    ensures p == "" <==> name == ""
  {
    if name == "" then "" else curDir + name + [SEP] + "Image" + [SEP]
  }

  function FileDir(curDir: string, name: string): (p: string)
    ensures p == "" <==> name == ""
  {
    if name == "" then "" else curDir + name + [SEP] + "FileRecv" + [SEP]
  }

  function DataBaseFileName(curDir: string, name: string): (p: string)
    ensures p == "" <==> name == ""
  {
    if name == "" then "" else curDir + name + [SEP] + name + ".db"
  }

  /**
   * The image, received-file and database paths all lie inside the user's
   * main folder, under different names, so the three never coincide.
   */
  lemma UserPathsNested(curDir: string, name: string)
    requires name != ""
    ensures ImageDir(curDir, name) == MainFolder(curDir, name) + "Image" + [SEP]
    ensures FileDir(curDir, name) == MainFolder(curDir, name) + "FileRecv" + [SEP]
    ensures DataBaseFileName(curDir, name) == MainFolder(curDir, name) + name + ".db"
    ensures ImageDir(curDir, name) != FileDir(curDir, name)
    ensures ImageDir(curDir, name) != MainFolder(curDir, name)
    ensures DataBaseFileName(curDir, name) != ImageDir(curDir, name)
  {
    var m := MainFolder(curDir, name);
    assert |ImageDir(curDir, name)| == |m| + 6;
    assert |FileDir(curDir, name)| == |m| + 9;
    var db := DataBaseFileName(curDir, name);
    assert db[|db| - 1] == 'b';
    var im := ImageDir(curDir, name);
    assert im[|im| - 1] == SEP;
  }

  predicate IsSep(c: char) { c == '\\' || c == '/' }

  /**
   * GetFileNameFromPath: the part of a path after its last separator (the
   * whole path when it has none). What that part is, is stated by
   * BaseNameShape.
   */
  function BaseName(p: string): (r: string)
    ensures |r| <= |p|
    decreases |p|
  {
    if p == [] then []
    else if IsSep(p[|p| - 1]) then []
    else BaseName(p[..|p| - 1]) + [p[|p| - 1]]
  }

  /**
   * The base name is a tail of the path with no separator in it, and it
   * reaches back to the path's last separator (or to the path's start).
   */
  lemma {:induction false} BaseNameShape(p: string)
    ensures var r := BaseName(p);
            r == p[|p| - |r|..] &&
            (forall i :: 0 <= i < |r| ==> !IsSep(r[i])) &&
            (|r| < |p| ==> IsSep(p[|p| - |r| - 1]))
    decreases |p|
  {
    if p != [] && !IsSep(p[|p| - 1]) {
      var init := p[..|p| - 1];
      BaseNameShape(init);
      var r0 := BaseName(init);
      assert BaseName(p) == r0 + [p[|p| - 1]];
      assert init[|init| - |r0|..] + [p[|p| - 1]] == p[|p| - |r0| - 1..];
    }
  }

  /** A base name has no separator left to split off. */
  lemma BaseNameIdempotent(p: string)
    ensures BaseName(BaseName(p)) == BaseName(p)
  {
    BaseNameShape(p);
    BaseNameOfJoin([], BaseName(p));
    assert [] + BaseName(p) == BaseName(p);
  }

  /** A directory followed by a separator-free name splits back into that name. */
  lemma {:induction false} BaseNameOfJoin(dir: string, name: string)
    requires forall i :: 0 <= i < |name| ==> !IsSep(name[i])
    requires dir != [] ==> IsSep(dir[|dir| - 1])
    ensures BaseName(dir + name) == name
    decreases |name|
  {
    var p := dir + name;
    if name == [] {
      assert p == dir;
    } else {
      var init := name[..|name| - 1];
      var last := name[|name| - 1];
      assert p[|p| - 1] == last && !IsSep(last);
      assert p[..|p| - 1] == dir + init;
      assert BaseName(p) == BaseName(dir + init) + [last];
      BaseNameOfJoin(dir, init);
      assert init + [last] == name;
    }
  }

  /**
   * GetFileNameExtension: the part of a base name from its last '.', or
   * empty when it has none.
   */
  function Extension(p: string): (r: string)
    ensures |r| <= |p| && r == p[|p| - |r|..]
    ensures r != [] ==> r[0] == '.'
    decreases |p|
  {
    if p == [] || IsSep(p[|p| - 1]) then []
    else if p[|p| - 1] == '.' then [p[|p| - 1]]
    else
      var e := Extension(p[..|p| - 1]);
      if e == [] then [] else e + [p[|p| - 1]]
  }

  /**
   * The extension is the tail of the path from the last '.' of its last
   * component: no separator and no further '.' follow that dot, and the
   * extension is empty exactly when the base name has no '.'.
   */
  lemma ExtensionShape(p: string)
    ensures DotTail(Extension(p))
    ensures Extension(p) == [] <==> '.' !in BaseName(p)
  {
    ExtensionTail(p);
    ExtensionEmpty(p);
  }

  /** Neither a separator nor, after its first character, a '.' occurs in `r`. */
  predicate DotTail(r: string)
  {
    (forall i :: 0 <= i < |r| ==> !IsSep(r[i])) &&
    (forall i :: 1 <= i < |r| ==> r[i] != '.')
  }

  /** After the dot that starts it, an extension holds no separator and no '.'. */
  lemma {:induction false} ExtensionTail(p: string)
    ensures DotTail(Extension(p))
    decreases |p|
  {
    if p != [] && !IsSep(p[|p| - 1]) && p[|p| - 1] != '.' {
      var init := p[..|p| - 1];
      ExtensionTail(init);
      var e := Extension(init);
      if e != [] {
        var last := p[|p| - 1];
        var r := e + [last];
        assert Extension(p) == r;
        forall i | 0 <= i < |r|
          ensures !IsSep(r[i]) && (i >= 1 ==> r[i] != '.')
        {
          if i < |e| {
            assert r[i] == e[i];
          } else {
            assert r[i] == last;
          }
        }
      }
    }
  }

  /** The extension is empty exactly when the base name has no '.'. */
  lemma {:induction false} ExtensionEmpty(p: string)
    ensures Extension(p) == [] <==> '.' !in BaseName(p)
    decreases |p|
  {
    if p != [] && !IsSep(p[|p| - 1]) {
      var init := p[..|p| - 1];
      var last := p[|p| - 1];
      var b := BaseName(init);
      assert BaseName(p) == b + [last];
      assert last in b + [last];
      if last != '.' {
        ExtensionEmpty(init);
        assert '.' in b + [last] ==> '.' in b;
        assert '.' in b ==> '.' in b + [last];
      }
    }
  }
}
