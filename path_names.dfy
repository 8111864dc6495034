/** The part of Rust's `std::path::Path` that `cp` relies on: `file_name()` on a
    Unix path, that is, the last normal component of a `/`-separated path, or
    nothing when the path ends in `..`, is a root, or is empty. */
module PathNames {
  import opened Results

  /** The pieces of `p` between `/` separators (empty pieces included). */
  function Split(p: string): (r: seq<string>)
    ensures |r| >= 1
    ensures forall i :: 0 <= i < |r| ==> '/' !in r[i]
  {
    if p == [] then [[]]
    else
      var rest := Split(p[1..]);
      if p[0] == '/' then [[]] + rest
      else [[p[0]] + rest[0]] + rest[1..]
  }

  /** Path components as Rust yields them, minus the `.` ones: repeated
      separators and `.` never name a file. */
  function Components(pieces: seq<string>): (r: seq<string>)
    ensures forall i :: 0 <= i < |r| ==> r[i] in pieces && r[i] != [] && r[i] != "."
  {
    if pieces == [] then []
    else
      var rest := Components(pieces[1..]);
      if pieces[0] == [] || pieces[0] == "." then rest else [pieces[0]] + rest
  }

  /** A name a path can end in: not empty, not `.` or `..`, no separator. */
  predicate IsNormal(name: string) {
    name != [] && name != "." && name != ".." && '/' !in name
  }

  /** `Path::file_name`: the final component of `path` when it is a normal one. */
  function FileName(path: string): (r: Option<string>)
    ensures r.Some? ==> IsNormal(r.value)
  {
    var comps := Components(Split(path));
    if comps == [] || comps[|comps| - 1] == ".." then None
    else Some(comps[|comps| - 1])
  }

  lemma {:induction false} SplitJoin(a: string, b: string)
    ensures Split(a + "/" + b) == Split(a) + Split(b)
  {
    if a == [] {
      assert a + "/" + b == "/" + b;
      assert ("/" + b)[1..] == b;
    } else {
      assert (a + "/" + b)[1..] == a[1..] + "/" + b;
      SplitJoin(a[1..], b);
    }
  }

  lemma {:induction false} SplitPlain(b: string)
    requires '/' !in b
    ensures Split(b) == [b]
  {
    if b != [] {
      SplitPlain(b[1..]);
      assert [b[0]] + b[1..] == b;
    }
  }

  lemma {:induction false} ComponentsAppend(x: seq<string>, y: seq<string>)
    ensures Components(x + y) == Components(x) + Components(y)
  {
    if x == [] {
      assert x + y == y;
    } else {
      assert (x + y)[1..] == x[1..] + y;
      ComponentsAppend(x[1..], y);
    }
  }

  /** Joining a directory and a normal name with `/` gives a path whose file
      name is that name; a normal name alone is its own file name. */
  lemma FileNameOfJoin(dir: string, name: string)
    requires IsNormal(name)
    ensures FileName(dir + "/" + name) == Some(name)
    ensures FileName(name) == Some(name)
  {
    SplitJoin(dir, name);
    SplitPlain(name);
    ComponentsAppend(Split(dir), [name]);
    assert Components([name]) == [name];
  }

  /** A trailing separator, or a trailing `.` component, does not change
      the file name: `/usr/bin/` names `bin`, and so does `/usr/bin/.`. */
  lemma FileNameIgnoresTrailing(dir: string, name: string, last: string)
    requires IsNormal(name)
    requires last == "" || last == "."
    ensures FileName(dir + "/" + name + "/" + last) == Some(name)
  {
    var path := dir + "/" + name + "/" + last;
    assert Split(name + "/" + last) == [name, last] by {
      SplitJoin(name, last);
      SplitPlain(name);
      SplitPlain(last);
    }
    assert Split(path) == Split(dir) + [name, last] by {
      assert path == dir + "/" + (name + "/" + last);
      SplitJoin(dir, name + "/" + last);
    }
    assert Components([name, last]) == [name] by {
      assert [name, last][1..] == [last];
      assert Components([last]) == [];
    }
    ComponentsAppend(Split(dir), [name, last]);
  }

  /** A path ending in `..` has no file name, and neither has `..` alone. */
  lemma FileNameOfParent(dir: string)
    ensures FileName(dir + "/..") == None
    ensures FileName("..") == None
  {
    SplitJoin(dir, "..");
    SplitPlain("..");
    assert dir + "/.." == dir + "/" + "..";
    ComponentsAppend(Split(dir), [".."]);
    assert Components([".."]) == [".."];
  }

  lemma {:induction false} ComponentsOfBlank(pieces: seq<string>)
    requires forall i :: 0 <= i < |pieces| ==> pieces[i] == [] || pieces[i] == "."
    ensures Components(pieces) == []
  {
    if pieces != [] {
      ComponentsOfBlank(pieces[1..]);
    }
  }

  /** A path made only of separators and `.` pieces (`""`, `"."`, `"/"`,
      `"//"`, `"./"`) has no file name. */
  lemma FileNameWithoutComponents(path: string)
    requires forall i :: 0 <= i < |Split(path)| ==> Split(path)[i] == [] || Split(path)[i] == "."
    ensures FileName(path) == None
  {
    ComponentsOfBlank(Split(path));
  }

  /** The root is such a path: its two pieces around the separator are empty. */
  lemma FileNameOfRoot()
    ensures FileName("/") == None
  {
    SplitJoin("", "");
    assert "/" == "" + "/" + "";
    assert Split("/") == [[], []];
    FileNameWithoutComponents("/");
  }
}
