/** The request file's extension, as `makeDecoder` computes it with
    `strings.TrimLeft(filepath.Ext(path), ".")`. Paths use the '/' separator. */
module Paths {
  import opened Strings

  const Separator: char := '/'

  /** `filepath.Ext`: the suffix of `path` that starts at the final '.' of its last
      element, or "" when the last element has no '.' (see `ExtIsFinalDotSuffix`). */
  function Ext(path: string): string
    decreases |path|
  {
    if path == [] || path[|path| - 1] == Separator then []
    else if path[|path| - 1] == '.' then ['.']
    else
      var e := Ext(path[..|path| - 1]);
      if e == [] then []
      else e + [path[|path| - 1]]
  }

  /** `Ext` is a suffix of the path; a non-empty one starts at a '.' and holds no later
      '.' and no separator; an empty one means the last element (after the last
      separator) holds no '.'. */
  lemma {:induction false} ExtIsFinalDotSuffix(path: string)
    ensures var e := Ext(path);
      && |e| <= |path| && e == path[|path| - |e|..]
      && (e != [] ==> e[0] == '.' && forall k :: 1 <= k < |e| ==> e[k] != '.' && e[k] != Separator)
      && (e == [] ==> forall k :: LastIndexOf(path, Separator) < k < |path| ==> path[k] != '.')
    decreases |path|
  {
    if path == [] || path[|path| - 1] == Separator {
    } else if path[|path| - 1] == '.' {
      assert Ext(path) == ['.'];
      assert path[|path| - 1..] == ['.'];
    } else {
      var front := path[..|path| - 1];
      var c := path[|path| - 1];
      ExtIsFinalDotSuffix(front);
      assert LastIndexOf(path, Separator) == LastIndexOf(front, Separator);
      var e := Ext(front);
      if e == [] {
        assert Ext(path) == [];
        forall k | LastIndexOf(path, Separator) < k < |path|
          ensures path[k] != '.'
        {
          if k < |front| {
            assert path[k] == front[k];
          }
        }
      } else {
        var e' := e + [c];
        assert Ext(path) == e';
        assert front[|front| - |e|..] + [c] == path[|path| - |e'|..];
        forall k | 1 <= k < |e'|
          ensures e'[k] != '.' && e'[k] != Separator
        {
          if k < |e| {
            assert e'[k] == e[k];
          }
        }
      }
    }
  }

  /** `strings.TrimLeft(s, ".")`: s without its leading run of dots. */
  function TrimLeadingDots(s: string): (r: string)
    ensures |r| <= |s| && r == s[|s| - |r|..]
    ensures r == [] || r[0] != '.'
    ensures forall k :: 0 <= k < |s| - |r| ==> s[k] == '.'
  {
    if s != [] && s[0] == '.' then TrimLeadingDots(s[1..]) else s
  }

  /** The extension `makeDecoder` compares with the registered input formats. */
  function RequestExtension(path: string): string
  {
    TrimLeadingDots(Ext(path))
  }

  /** Trimming the leading dot of ".x", for a dot-free x, gives back x. */
  lemma {:induction false} TrimSingleDot(x: string)
    requires forall k :: 0 <= k < |x| ==> x[k] != '.'
    ensures TrimLeadingDots("." + x) == x
  {
    assert ("." + x)[1..] == x;
    if x != [] {
      assert x[0] != '.';
    }
  }

  /** `RequestExtension` is `Ext` without its leading '.', and "" when `Ext` is "". */
  lemma {:induction false} RequestExtensionDropsDot(path: string)
    ensures Ext(path) != [] ==> RequestExtension(path) == Ext(path)[1..]
    ensures Ext(path) == [] ==> RequestExtension(path) == []
  {
    var e := Ext(path);
    ExtIsFinalDotSuffix(path);
    if e != [] {
      var tail := e[1..];
      assert e == "." + tail;
      assert forall k :: 0 <= k < |tail| ==> tail[k] == e[k + 1];
      TrimSingleDot(tail);
    }
  }

  /** The extension is the text after the final '.' of the last path element: it holds
      no '.' and no separator, a non-empty one is preceded by that '.' in path, and a
      path whose last element has no '.' has none. */
  lemma {:induction false} RequestExtensionIsTextAfterLastDot(path: string)
    ensures var r := RequestExtension(path);
      && (forall k :: 0 <= k < |r| ==> r[k] != '.' && r[k] != Separator)
      && (r != [] ==> |r| < |path| && path[|path| - |r| - 1] == '.' && r == path[|path| - |r|..])
  {
    var e := Ext(path);
    ExtIsFinalDotSuffix(path);
    RequestExtensionDropsDot(path);
    if e != [] {
      var tail := e[1..];
      assert forall k :: 0 <= k < |tail| ==> tail[k] == e[k + 1];
      var n := |path| - |e|;
      assert path[n..] == e;
      assert path[n] == e[0];
      assert path[n + 1..] == tail;
    }
  }

  /** A name ending in '.' followed by dot-free, separator-free text has that text as
      its extension, whatever comes before (further dots included). */
  lemma {:induction false} ExtensionAfterFinalDot(stem: string, x: string)
    requires forall k :: 0 <= k < |x| ==> x[k] != '.' && x[k] != Separator
    ensures Ext(stem + "." + x) == "." + x
    ensures RequestExtension(stem + "." + x) == x
  {
    ExtOfDotSuffix(stem, x);
    TrimSingleDot(x);
  }

  lemma {:induction false} ExtOfDotSuffix(stem: string, x: string)
    requires forall k :: 0 <= k < |x| ==> x[k] != '.' && x[k] != Separator
    ensures Ext(stem + "." + x) == "." + x
    decreases |x|
  {
    var path := stem + "." + x;
    if x == [] {
      assert path[|path| - 1] == '.';
    } else {
      var last := x[|x| - 1];
      var front := x[..|x| - 1];
      assert path[|path| - 1] == last;
      assert path[..|path| - 1] == stem + "." + front;
      ExtOfDotSuffix(stem, front);
      assert Ext(path) == Ext(stem + "." + front) + [last];
      assert ("." + front) + [last] == "." + x;
    }
  }

  /** A last path element without any '.' gives no extension, whatever the directory part. */
  lemma {:induction false} NoExtensionWithoutDot(dir: string, name: string)
    requires forall k :: 0 <= k < |name| ==> name[k] != '.' && name[k] != Separator
    ensures Ext(dir + [Separator] + name) == ""
    ensures RequestExtension(dir + [Separator] + name) == ""
    decreases |name|
  {
    var path := dir + [Separator] + name;
    if name == [] {
      assert path[|path| - 1] == Separator;
    } else {
      var front := name[..|name| - 1];
      assert path[|path| - 1] == name[|name| - 1];
      assert path[..|path| - 1] == dir + [Separator] + front;
      NoExtensionWithoutDot(dir, front);
    }
  }

  lemma ExtensionOfRequestJson()
    ensures RequestExtension("req.json") == "json"
  {
    ExtensionAfterFinalDot("req", "json");
    assert "req" + "." + "json" == "req.json";
  }

  lemma ExtensionOfDoubleSuffix()
    ensures RequestExtension("archive.tar.gz") == "gz"
  {
    ExtensionAfterFinalDot("archive.tar", "gz");
    assert "archive.tar" + "." + "gz" == "archive.tar.gz";
  }

  lemma ExtensionOfDotInDirectory()
    ensures RequestExtension("conf.d/request") == ""
  {
    NoExtensionWithoutDot("conf.d", "request");
    assert "conf.d" + [Separator] + "request" == "conf.d/request";
  }

  lemma ExtensionOfTrailingDot()
    ensures RequestExtension("request.") == ""
  {
    ExtensionAfterFinalDot("request", "");
    assert "request" + "." + "" == "request.";
  }
}
