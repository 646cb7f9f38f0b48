/** Slash-separated names: their components, and cleaning and joining as path/filepath does it. */
module Paths {
  import opened Text

  // ---------------------------------------------------------------- path parts

  /** strings.Split(p, "/"). */
  function Split(p: string): (parts: seq<string>)
    ensures |parts| >= 1
    ensures forall i :: 0 <= i < |parts| ==> '/' !in parts[i]
  {
    var i := Find(p, '/');
    if i == |p| then
      assert p[..i] == p;
      [p]
    else [p[..i]] + Split(p[i + 1..])
  }

  /** path.Base of a clean relative path. */
  function Base(p: string): string { Split(p)[|Split(p)| - 1] }

  lemma {:induction false} SplitHead(a: string, b: string)
    requires '/' !in a
    ensures Split(a + "/" + b) == [a] + Split(b)
  {
    FindAfter(a, '/', b);
    var s := a + "/" + b;
    assert s[..|a|] == a && s[|a| + 1..] == b;
  }

  lemma {:induction false} SplitPlain(a: string)
    requires '/' !in a
    ensures Split(a) == [a]
  {
    assert forall i :: 0 <= i < |a| ==> a[i] != '/';
  }

  /** Directories named by different slash-free names share no path. */
  lemma {:induction false} DirsDisjoint(path: string, a: string, b: string)
    requires '/' !in a && '/' !in b && HasPrefix(path, a + "/") && (HasPrefix(path, b + "/") || path == b)
    ensures a == b
  {
    assert path[|a|] == '/' && '/' in path;
    assert path[|b|] == '/';
    assert forall i :: 0 <= i < |a| ==> path[i] == a[i];
    assert forall i :: 0 <= i < |b| ==> path[i] == b[i];
    assert |a| == |b|;
    assert a == path[..|a|] && b == path[..|b|];
  }

  // ------------------------------------------------------------- cleaning names

  /** The components that name something: not empty and not ".". */
  function Kept(parts: seq<string>): seq<string> {
    if parts == [] then []
    else if parts[0] == "" || parts[0] == "." then Kept(parts[1..])
    else [parts[0]] + Kept(parts[1..])
  }

  function Joined(parts: seq<string>): string {
    if parts == [] then "" else if |parts| == 1 then parts[0] else parts[0] + "/" + Joined(parts[1..])
  }

  /** filepath.Clean of a relative name without "..", with the empty text for ".". */
  function Clean(p: string): string { Joined(Kept(Split(p))) }

  /** filepath.Join of a directory and a cleaned name. */
  function Place(dir: string, name: string): string { if name == "" then dir else dir + "/" + name }

  lemma {:induction false} PlaceInjective(dir: string, x: string, y: string)
    ensures Place(dir, x) == Place(dir, y) <==> x == y
  {
    if x != "" && y != "" {
      assert Place(dir, x)[|dir| + 1..] == x && Place(dir, y)[|dir| + 1..] == y;
    }
  }

  /** Joining cleans: the directory, then what is left of the name. */
  lemma {:induction false} JoinIsPlace(dir: string, name: string)
    requires '/' !in dir && dir != "" && dir != "."
    ensures Clean(dir + "/" + name) == Place(dir, Clean(name))
  {
    SplitHead(dir, name);
    var parts := [dir] + Split(name);
    assert parts[1..] == Split(name);
    var rest := Kept(Split(name));
    assert Kept(parts) == [dir] + rest;
    assert ([dir] + rest)[1..] == rest;
    JoinedEmpty(rest, Split(name));
  }

  lemma {:induction false} JoinedEmpty(rest: seq<string>, parts: seq<string>)
    requires rest == Kept(parts)
    ensures Joined(rest) == "" <==> rest == []
  {
    KeptAreNames(parts);
    if rest != [] {
      assert rest[0] in rest;
    }
  }

  lemma {:induction false} KeptAreNames(parts: seq<string>)
    ensures forall p :: p in Kept(parts) ==> p in parts && p != "" && p != "."
    decreases |parts|
  {
    if parts != [] {
      KeptAreNames(parts[1..]);
      assert parts == [parts[0]] + parts[1..];
    }
  }

  /** A plain file name is clean, and a leading "./" changes nothing. */
  lemma {:induction false} CleanPlain(name: string)
    requires '/' !in name && name != "" && name != "."
    ensures Clean(name) == name && Clean("./" + name) == name
  {
    SplitPlain(name);
    KeptOne(name);
    assert Split(name) == [name];
    SplitHead(".", name);
    assert "." + "/" + name == "./" + name;
    assert (["."] + [name])[1..] == [name];
  }

  lemma {:induction false} KeptOne(name: string)
    requires name != "" && name != "."
    ensures Kept([name]) == [name] && Joined([name]) == name
  {
    assert [name][1..] == [];
    assert Kept([]) == [];
  }
}
