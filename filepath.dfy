/** The three functions of Go's `path/filepath` package (Unix flavour, '/' as
    separator) that `sources/vyos-http.go` relies on: `Ext`, `Join` and the
    `Clean` that `Join` applies to its result. Go strings are byte strings;
    here a path is a `string` and each character stands for one byte. */
module FilePath {

  const Separator: char := '/'

  /** `filepath.Ext`: the suffix of `path` that begins at the last '.' of the
      final path element, or "" when that element holds no '.'. */
  function Ext(path: string): string
    decreases |path|
  {
    if path == [] then ""
    else
      var last := path[|path| - 1];
      if last == Separator then ""
      else if last == '.' then "."
      else
        var e := Ext(path[..|path| - 1]);
        if e == "" then "" else e + [last]
  }

  /** A non-empty extension is a suffix of the path that starts with a '.'
      and holds no other '.' and no separator. */
  lemma {:induction false} ExtSuffix(path: string)
    ensures var ext := Ext(path);
      ext != "" ==>
        && |ext| <= |path|
        && ext == path[|path| - |ext|..]
        && ext[0] == '.'
        && forall k :: 1 <= k < |ext| ==> ext[k] != '.' && ext[k] != Separator
    decreases |path|
  {
    if path != [] {
      var init := path[..|path| - 1];
      var last := path[|path| - 1];
      ExtSuffix(init);
      if last != Separator && last != '.' && Ext(init) != "" {
        assert path == init + [last];
      }
    }
  }

  /** An empty extension means the final path element has no '.': every
      '.' lies before some separator. */
  lemma {:induction false} ExtEmpty(path: string)
    ensures Ext(path) == "" ==>
      forall i :: 0 <= i < |path| && path[i] == '.' ==> Separator in path[i + 1..]
    decreases |path|
  {
    if path != [] && Ext(path) == "" {
      var init := path[..|path| - 1];
      var last := path[|path| - 1];
      forall i | 0 <= i < |path| && path[i] == '.'
        ensures Separator in path[i + 1..]
      {
        if last == Separator {
          assert path[i + 1..][|path| - i - 2] == Separator;
        } else {
          ExtEmpty(init);
          assert init[i] == '.';
          assert path[i + 1..] == init[i + 1..] + [last];
        }
      }
    }
  }

  /** Go's extension test is exact and case-sensitive: a name has extension
      ".iso" exactly when it ends in ".iso". */
  lemma {:induction false} ExtIsIsoIffSuffix(name: string)
    ensures Ext(name) == ".iso" <==> |name| >= 4 && name[|name| - 4..] == ".iso"
  {
    var e := Ext(name);
    var n := |name|;
    ExtSuffix(name);
    if n >= 4 && name[n - 4..] == ".iso" {
      assert name[n - 4] == '.' && name[n - 3] == 'i' && name[n - 2] == 's' && name[n - 1] == 'o';
      var p1, p2, p3 := name[..n - 1], name[..n - 2], name[..n - 3];
      assert p1[..|p1| - 1] == p2 && p2[..|p2| - 1] == p3;
      assert Ext(p3) == ".";
      assert Ext(p2) == ".i";
      assert Ext(p1) == ".is";
      assert e == ".iso";
    }
  }

  /** `strings.Split(p, "/")`: the pieces of `p` between separators; there is
      always one more piece than there are separators. */
  function Split(p: string): (parts: seq<string>)
    ensures |parts| >= 1
    ensures JoinSeparated(parts) == p
    ensures forall k :: 0 <= k < |parts| ==> Separator !in parts[k]
    decreases |p|
  {
    if p == [] then [""]
    else
      var init := Split(p[..|p| - 1]);
      var c := p[|p| - 1];
      assert p == p[..|p| - 1] + [c];
      if c == Separator then init + [""]
      else
        var r := init[..|init| - 1] + [init[|init| - 1] + [c]];
        assert r[..|r| - 1] == init[..|init| - 1];
        r
  }

  /** `strings.Join(parts, "/")`. */
  function JoinSeparated(parts: seq<string>): (p: string)
    ensures p == "" <==> parts == [] || parts == [""]
  {
    if parts == [] then ""
    else if |parts| == 1 then parts[0]
    else JoinSeparated(parts[..|parts| - 1]) + [Separator] + parts[|parts| - 1]
  }

  /** The elements of a split path that name something: empty elements
      (from repeated separators) and "." are dropped. */
  function Names(parts: seq<string>): (names: seq<string>)
    requires forall k :: 0 <= k < |parts| ==> Separator !in parts[k]
    ensures forall k :: 0 <= k < |names| ==> PlainOrParent(names[k])
  {
    if parts == [] then []
    else
      var rest := Names(parts[..|parts| - 1]);
      var x := parts[|parts| - 1];
      if x == "" || x == "." then rest else rest + [x]
  }

  /** A path element that survives cleaning: non-empty, not ".", and free of
      separators. */
  predicate PlainOrParent(x: string)
  {
    x != "" && x != "." && Separator !in x
  }

  /** Lexical processing of "..": an inner ".." removes the name before it;
      a ".." at the start of a rooted path is dropped, and at the start of a
      relative path it is kept. */
  function Resolve(names: seq<string>, rooted: bool): (out: seq<string>)
    requires forall k :: 0 <= k < |names| ==> PlainOrParent(names[k])
    ensures forall k :: 0 <= k < |out| ==> PlainOrParent(out[k])
  {
    if names == [] then []
    else
      var out := Resolve(names[..|names| - 1], rooted);
      var x := names[|names| - 1];
      if x != ".." then out + [x]
      else if out != [] && out[|out| - 1] != ".." then out[..|out| - 1]
      else if rooted then out
      else out + [".."]
  }

  /** `filepath.Clean`: the shortest lexically equivalent path; "." for an
      empty result of a relative path. */
  function Clean(p: string): (c: string)
    ensures c != ""
  {
    if p == "" then "."
    else
      var rooted := p[0] == Separator;
      Rebuild(rooted, Resolve(Names(Split(p)), rooted))
  }

  /** The cleaned path from its resolved names. */
  function Rebuild(rooted: bool, out: seq<string>): (c: string)
    ensures c != ""
  {
    var body := JoinSeparated(out);
    if rooted then [Separator] + body
    else if body == "" then "."
    else body
  }

  /** `filepath.Join`: leading empty elements are skipped, the rest are joined
      with separators and cleaned; all-empty input gives "". */
  function Join(elems: seq<string>): (p: string)
    ensures p == "" <==> forall k :: 0 <= k < |elems| ==> elems[k] == ""
  {
    if elems == [] then ""
    else if elems[0] == "" then
      assert forall k :: 1 <= k < |elems| ==> elems[1..][k - 1] == elems[k];
      Join(elems[1..])
    else Clean(JoinSeparated(elems))
  }

  lemma {:induction false} SplitAppend(p: string, name: string)
    requires Separator !in name
    ensures Split(p + [Separator] + name) == Split(p) + [name]
    decreases |name|
  {
    var q := p + [Separator] + name;
    if name == [] {
      assert q[..|q| - 1] == p;
    } else {
      var n' := name[..|name| - 1];
      var c := name[|name| - 1];
      assert q[..|q| - 1] == p + [Separator] + n';
      assert name == n' + [c];
      SplitAppend(p, n');
    }
  }

  /** Joining a directory with an empty file name gives the cleaned directory:
      `filepath.Join(dir, "")` is `filepath.Clean(dir)` for a non-empty `dir`. */
  lemma JoinEmptyName(dir: string)
    ensures Join([dir, ""]) == if dir == "" then "" else Clean(dir)
  {
    if dir != "" {
      var glued := JoinSeparated([dir, ""]);
      assert [dir, ""][..1] == [dir];
      assert JoinSeparated([dir]) == dir;
      assert glued == dir + [Separator];
      SplitAppend(dir, "");
      assert dir + [Separator] + "" == glued;
      var parts := Split(dir);
      assert Names(parts + [""]) == Names(parts) by {
        assert (parts + [""])[..|parts|] == parts;
      }
      assert glued[0] == dir[0];
    }
  }

  lemma NamesSnoc(parts: seq<string>, x: string)
    requires forall k :: 0 <= k < |parts| ==> Separator !in parts[k]
    requires PlainOrParent(x)
    ensures Names(parts + [x]) == Names(parts) + [x]
  {
    assert (parts + [x])[..|parts|] == parts;
  }

  lemma ResolveSnoc(names: seq<string>, x: string, rooted: bool)
    requires forall k :: 0 <= k < |names| ==> PlainOrParent(names[k])
    requires PlainOrParent(x) && x != ".."
    ensures Resolve(names + [x], rooted) == Resolve(names, rooted) + [x]
  {
    assert (names + [x])[..|names|] == names;
  }

  lemma JoinSeparatedSnoc(parts: seq<string>, x: string)
    requires parts != []
    ensures JoinSeparated(parts + [x]) == JoinSeparated(parts) + [Separator] + x
  {
    assert (parts + [x])[..|parts|] == parts;
  }

  /** Appending two plain names to resolved names appends them to the
      rebuilt path. */
  lemma RebuildAppendNames(rooted: bool, out: seq<string>, a: string, b: string)
    requires forall k :: 0 <= k < |out| ==> PlainOrParent(out[k])
    requires PlainOrParent(a) && PlainOrParent(b)
    ensures Rebuild(rooted, out + [a] + [b]) ==
            (if Rebuild(rooted, out) == "/" then "/"
             else if Rebuild(rooted, out) == "." then ""
             else Rebuild(rooted, out) + "/") + a + "/" + b
  {
    var c := Rebuild(rooted, out);
    var body := JoinSeparated(out);
    var body' := JoinSeparated(out + [a] + [b]);
    var tail := a + "/" + b;
    if out == [] {
      assert body' == tail by {
        assert out + [a] + [b] == [a] + [b];
        JoinSeparatedSnoc([a], b);
      }
    } else {
      assert body' == body + "/" + tail by {
        JoinSeparatedSnoc(out, a);
        JoinSeparatedSnoc(out + [a], b);
      }
      if |out| == 1 {
        assert body == out[0];
      } else {
        JoinSeparatedSnoc(out[..|out| - 1], out[|out| - 1]);
        assert out[..|out| - 1] + [out[|out| - 1]] == out;
        assert |body| >= 2;
      }
      assert c != "/" && c != ".";
    }
  }

  /** Cleaning "dir/a/b" for plain names `a` and `b` appends them to the
      cleaned `dir`. */
  lemma CleanAppendNames(dir: string, a: string, b: string)
    requires dir != ""
    requires PlainOrParent(a) && a != ".."
    requires PlainOrParent(b) && b != ".."
    ensures Clean(dir + [Separator] + a + [Separator] + b) ==
            (if Clean(dir) == "/" then "/"
             else if Clean(dir) == "." then ""
             else Clean(dir) + "/") + a + "/" + b
  {
    var p := dir + [Separator] + a + [Separator] + b;
    var parts := Split(dir);
    assert Split(p) == parts + [a] + [b] by {
      SplitAppend(dir, a);
      SplitAppend(dir + [Separator] + a, b);
    }
    var names := Names(parts);
    assert Names(Split(p)) == names + [a] + [b] by {
      NamesSnoc(parts, a);
      NamesSnoc(parts + [a], b);
    }
    var rooted := dir[0] == Separator;
    assert p[0] == dir[0];
    var out := Resolve(names, rooted);
    assert Resolve(names + [a] + [b], rooted) == out + [a] + [b] by {
      ResolveSnoc(names, a, rooted);
      ResolveSnoc(names + [a], b, rooted);
    }
    RebuildAppendNames(rooted, out, a, b);
  }

  /** `filepath.Join(dir, a, b)` for plain names `a` and `b` is "a/b"
      directly below the cleaned `dir`. */
  lemma JoinPlainNames(dir: string, a: string, b: string)
    requires dir != ""
    requires PlainOrParent(a) && a != ".."
    requires PlainOrParent(b) && b != ".."
    ensures Join([dir, a, b]) ==
            (if Clean(dir) == "/" then "/"
             else if Clean(dir) == "." then ""
             else Clean(dir) + "/") + a + "/" + b
  {
    assert Join([dir, a, b]) == Clean(dir + [Separator] + a + [Separator] + b) by {
      JoinSeparatedSnoc([dir], a);
      JoinSeparatedSnoc([dir, a], b);
      assert [dir, a, b] == [dir, a] + [b];
    }
    CleanAppendNames(dir, a, b);
  }
}
