/**
 The names of an image on their way into a disk: cleanTarName, and the loop of
 imageTar that refuses, skips and renames entries.
 */
module TarNames {
  import opened Wrappers

  predicate NoSlash(p: string) {
    '/' !in p
  }

  // Split and join at slashes

  function Split(s: string): (parts: seq<string>)
    ensures parts != []
  {
    if s == "" then [""]
    else
      var rest := Split(s[1..]);
      if s[0] == '/' then [""] + rest else [[s[0]] + rest[0]] + rest[1..]
  }

  function Join(parts: seq<string>): string {
    if parts == [] then "" else if |parts| == 1 then parts[0] else parts[0] + "/" + Join(parts[1..])
  }

  lemma {:induction false} SplitNoSlash(s: string)
    ensures forall p :: p in Split(s) ==> NoSlash(p)
  {
    if s != "" {
      SplitNoSlash(s[1..]);
      var rest := Split(s[1..]);
      assert rest[0] in rest;
      assert forall p :: p in rest[1..] ==> p in rest;
    }
  }

  lemma {:induction false} SplitWhole(p: string)
    requires NoSlash(p)
    ensures Split(p) == [p]
  {
    if p != "" {
      SplitWhole(p[1..]);
      assert p == [p[0]] + p[1..];
    }
  }

  /** What is on the two sides of a slash splits on its own. */
  lemma {:induction false} SplitConcat(a: string, b: string)
    ensures Split(a + "/" + b) == Split(a) + Split(b)
  {
    var s := a + "/" + b;
    if a == "" {
      assert s[1..] == b;
    } else {
      assert s[1..] == a[1..] + "/" + b;
      SplitConcat(a[1..], b);
    }
  }

  lemma SplitAt(p: string, s: string)
    requires NoSlash(p)
    ensures Split(p) == [p] && Split(p + "/" + s) == [p] + Split(s)
  {
    hide Split;
    SplitWhole(p);
    SplitConcat(p, s);
  }

  lemma {:induction false} SplitJoin(parts: seq<string>)
    requires parts != [] && forall p :: p in parts ==> NoSlash(p)
    ensures Split(Join(parts)) == parts
  {
    assert parts[0] in parts;
    if |parts| == 1 {
      SplitAt(parts[0], "");
    } else {
      SplitJoin(parts[1..]);
      SplitAt(parts[0], Join(parts[1..]));
      assert parts == [parts[0]] + parts[1..];
    }
  }

  lemma {:induction false} JoinSplit(s: string)
    ensures Join(Split(s)) == s
  {
    if s != "" {
      JoinSplit(s[1..]);
      var rest := Split(s[1..]);
      var parts := Split(s);
      assert parts[1..] == if s[0] == '/' then rest else rest[1..];
      assert s == [s[0]] + s[1..];
    }
  }

  lemma SplitTrailing(s: string)
    ensures Split(s + "/") == Split(s) + [""]
  {
    hide Split;
    SplitConcat(s, "");
    SplitWhole("");
    assert s + "/" + "" == s + "/";
  }

  /** The text p stands in n from i on, between slashes or the ends. */
  predicate Occurs(n: string, i: nat, p: string) {
    && i + |p| <= |n| && n[i..i + |p|] == p
    && (i == 0 || n[i - 1] == '/')
    && (i + |p| == |n| || n[i + |p|] == '/')
  }

  /** Each part of a split stands in the text. */
  lemma {:induction false} PartOccurs(n: string, k: nat) returns (i: nat)
    requires k < |Split(n)|
    ensures Occurs(n, i, Split(n)[k])
    decreases k
  {
    hide Split;
    var parts := Split(n);
    JoinSplit(n);
    if k == 0 {
      i := 0;
    } else {
      var tail := Join(parts[1..]);
      SplitNoSlash(n);
      SplitJoin(parts[1..]);
      var j := PartOccurs(tail, k - 1);
      i := |parts[0]| + 1 + j;
      assert n == parts[0] + "/" + tail;
      assert n[i..i + |parts[k]|] == tail[j..j + |parts[k]|];
    }
  }

  /** Text without a slash that stands in n is a part of its split. */
  lemma OccursPart(n: string, i: nat, p: string)
    requires NoSlash(p) && Occurs(n, i, p)
    ensures p in Split(n)
  {
    hide Split;
    var rest := n[i..];
    SplitWhole(p);
    if i + |p| < |n| {
      var after := n[i + |p| + 1..];
      assert rest == p + "/" + after;
      SplitConcat(p, after);
    } else {
      assert rest == p;
    }
    if 0 < i {
      assert n == n[..i - 1] + "/" + rest;
      SplitConcat(n[..i - 1], rest);
    } else {
      assert n == rest;
    }
    assert Split(rest)[0] == p;
  }

  // The clean name

  predicate Plain(p: string) {
    p != "" && p != "."
  }

  /** The parts of a name that mean something. */
  function Kept(parts: seq<string>): seq<string> {
    if parts == [] then []
    else
      var init, last := parts[..|parts| - 1], parts[|parts| - 1];
      if Plain(last) then Kept(init) + [last] else Kept(init)
  }

  predicate IsDir(n: string) {
    n != "" && n[|n| - 1] == '/'
  }

  function Clean(n: string): Option<string> {
    if ".." in Split(n) then None
    else
      var out := Join(Kept(Split(n)));
      Some(if IsDir(n) && out != "" then out + "/" else out)
  }

  method CleanTarName(n: string) returns (out: string, ok: bool)
    ensures ok <==> Clean(n).Some?
    ensures out == if ok then Clean(n).value else ""
  {
    hide Split, Join;
    var dir := n != "" && n[|n| - 1] == '/';
    var parts := [];
    var all := Split(n);
    for i := 0 to |all|
      invariant parts == Kept(all[..i]) && ".." !in all[..i]
    {
      var p := all[i];
      assert all[..i + 1] == all[..i] + [p];
      KeptAppend(all[..i], p);
      if p == "" || p == "." {
      } else if p == ".." {
        assert p in all;
        return "", false;
      } else {
        parts := parts + [p];
      }
    }
    assert all[..|all|] == all;
    out := Join(parts);
    if dir && out != "" {
      out := out + "/";
    }
    ok := true;
  }

  lemma KeptAppend(parts: seq<string>, p: string)
    ensures Kept(parts + [p]) == if Plain(p) then Kept(parts) + [p] else Kept(parts)
  {
    assert (parts + [p])[..|parts|] == parts;
  }

  lemma {:induction false} KeptPlain(parts: seq<string>)
    ensures forall p :: p in Kept(parts) <==> p in parts && Plain(p)
  {
    if parts != [] {
      KeptPlain(parts[..|parts| - 1]);
      assert parts == parts[..|parts| - 1] + [parts[|parts| - 1]];
    }
  }

  lemma {:induction false} KeptAll(parts: seq<string>)
    requires forall p :: p in parts ==> Plain(p)
    ensures Kept(parts) == parts
  {
    if parts != [] {
      var init := parts[..|parts| - 1];
      assert parts == init + [parts[|parts| - 1]];
      KeptAll(init);
    }
  }

  lemma {:induction false} JoinSome(parts: seq<string>)
    requires forall p :: p in parts ==> Plain(p)
    ensures Join(parts) == "" <==> parts == []
    ensures IsDir(Join(parts)) ==> exists p :: p in parts && !NoSlash(p)
  {
    if parts != [] {
      assert parts[0] in parts;
      if |parts| > 1 {
        JoinSome(parts[1..]);
        var rest := Join(parts[1..]);
        assert Join(parts)[|Join(parts)| - 1] == rest[|rest| - 1];
      } else {
        assert Join(parts)[|Join(parts)| - 1] in parts[0];
      }
    }
  }

  /** A clean name has exactly the parts of the name that mean something, in order, and the slash of a directory. */
  lemma CleanParts(n: string)
    requires Clean(n).Some?
    ensures var r, parts := Clean(n).value, Kept(Split(n));
            && (r == "" <==> parts == [])
            && (parts != [] ==> Split(r) == if IsDir(n) then parts + [""] else parts)
            && (parts != [] ==> (r != "" && r[|r| - 1] == '/' <==> n != "" && n[|n| - 1] == '/'))
            && forall p :: p in parts ==> Plain(p) && NoSlash(p) && p != ".."
  {
    hide Split, Join, Kept;
    var parts := Kept(Split(n));
    KeptPlain(Split(n));
    SplitNoSlash(n);
    JoinSome(parts);
    if parts != [] {
      SplitJoin(parts);
      SplitTrailing(Join(parts));
    }
  }

  /** A name is refused exactly when two dots stand in it between slashes or the ends. */
  lemma CleanRefuses(n: string)
    ensures Clean(n).None? <==> exists i: nat :: Occurs(n, i, "..")
  {
    hide Split, Occurs;
    if ".." in Split(n) {
      var k :| 0 <= k < |Split(n)| && Split(n)[k] == "..";
      var i := PartOccurs(n, k);
    }
    if i: nat :| Occurs(n, i, "..") {
      OccursPart(n, i, "..");
    }
  }

  /** No clean name starts with a slash. */
  lemma CleanRelative(n: string)
    requires Clean(n).Some?
    ensures Clean(n).value != "" ==> Clean(n).value[0] != '/'
  {
    hide Clean, Kept;
    CleanParts(n);
    var r := Clean(n).value;
    if r != "" {
      var parts := Kept(Split(n));
      assert parts[0] in parts;
      assert Split(r)[0] == parts[0];
    }
  }

  lemma CleanIdempotent(n: string)
    requires Clean(n).Some?
    ensures Clean(Clean(n).value) == Clean(n)
  {
    hide Split, Join, Kept;
    CleanParts(n);
    var r, parts := Clean(n).value, Kept(Split(n));
    if parts == [] {
      SplitAt("", "");
      KeptAppend([], "");
      NoParts();
      assert [] + [""] == [""];
    } else {
      KeptAll(parts);
      KeptAppend(parts, "");
      assert ".." !in Split(r);
      assert Kept(Split(r)) == parts;
    }
  }

  lemma NoParts()
    ensures Kept([]) == [] && Join([]) == ""
  {
  }

  // The entries of an image

  const SETEC := ".setec"

  predicate StartsWith(s: string, prefix: string) {
    prefix <= s
  }

  /** What the filter of imageTar looks at. */
  predicate InSetecDir(clean: string) {
    clean == SETEC || StartsWith(clean, SETEC + "/")
  }

  /** The filter catches exactly the names whose first part is the setec directory. */
  lemma SetecFiltered(n: string)
    requires Clean(n).Some?
    ensures InSetecDir(Clean(n).value) <==> Kept(Split(n)) != [] && Kept(Split(n))[0] == ".setec"
  {
    hide Split, Kept, Clean;
    var r, parts := Clean(n).value, Kept(Split(n));
    CleanParts(n);
    if StartsWith(r, SETEC + "/") {
      assert r == SETEC + "/" + r[7..];
      SplitAt(SETEC, r[7..]);
      assert Split(r)[0] == SETEC;
    } else if r == SETEC {
      SplitWhole(SETEC);
    } else if parts != [] {
      FirstPart(r);
      assert Split(r)[0] == parts[0];
    }
  }

  /** A name is its first part, alone or before a slash. */
  lemma FirstPart(s: string)
    ensures s == Split(s)[0] || StartsWith(s, Split(s)[0] + "/")
  {
    JoinSplit(s);
  }

  datatype Header = Header(name: string, link: Option<string>)

  predicate LeavesRoot(h: Header) {
    || Clean(h.name).None?
    || (Clean(h.name).value != "" && h.link.Some? && (Clean(h.link.value).None? || Clean(h.link.value).value == ""))
  }

  /**
   An entry leaves the root exactly when ".." stands in its name, or when it is a
   hard link, not named as the root itself, to a name with ".." or to the root.
   */
  lemma LeavesMeans(h: Header)
    ensures LeavesRoot(h) <==>
            || ".." in Split(h.name)
            || (&& (exists part :: part in Split(h.name) && part !in {"", "."})
                && h.link.Some?
                && (|| ".." in Split(h.link.value)
                    || forall part :: part in Split(h.link.value) ==> part in {"", "."}))
  {
    hide Clean, Split;
    RootMeans(h.name);
    if h.link.Some? {
      RootMeans(h.link.value);
    }
  }

  /** A name is that of the root exactly when every part of it is empty or ".". */
  lemma RootMeans(n: string)
    ensures Clean(n).None? <==> ".." in Split(n)
    ensures Clean(n).Some? ==> (Clean(n).value == "" <==> forall part :: part in Split(n) ==> part in {"", "."})
  {
    hide Split, Kept, Join;
    if Clean(n).Some? {
      CleanParts(n);
      KeptPlain(Split(n));
      var parts := Kept(Split(n));
      assert parts != [] ==> parts[0] in parts;
    }
  }

  /** What is written for one entry of the image. */
  function Written(h: Header): seq<Header>
    requires !LeavesRoot(h)
  {
    var name := Clean(h.name).value;
    if name == "" || InSetecDir(name) then []
    else [Header(name, if h.link.Some? then Clean(h.link.value) else None)]
  }

  function WrittenAll(hs: seq<Header>): seq<Header>
    requires forall h :: h in hs ==> !LeavesRoot(h)
  {
    if hs == [] then [] else WrittenAll(hs[..|hs| - 1]) + Written(hs[|hs| - 1])
  }

  const OWN := [Header(".setec/", None), Header(".setec/image.json", None)]

  /**
   The disk: the image without what it puts under .setec, then the setec entries. Any
   name that leaves the root refuses the image.
   */
  method ImageTar(hs: seq<Header>) returns (r: Option<seq<Header>>)
    ensures r.None? <==> exists h :: h in hs && LeavesRoot(h)
    ensures r.Some? ==>
              r.value == WrittenAll(hs) + [Header(".setec/", None), Header(".setec/image.json", None)]
  {
    hide Clean, InSetecDir;
    var out: seq<Header> := [];
    for i := 0 to |hs|
      invariant forall h :: h in hs[..i] ==> !LeavesRoot(h)
      invariant out == WrittenAll(hs[..i])
    {
      var h := hs[i];
      assert h in hs;
      assert hs[..i + 1] == hs[..i] + [h];
      WrittenAppend(hs[..i], h);
      var clean, ok := CleanTarName(h.name);
      if !ok {
        return None;
      }
      if clean == "" {
        continue;
      }
      var link: Option<string> := None;
      if h.link.Some? {
        var target, good := CleanTarName(h.link.value);
        if !good || target == "" {
          return None;
        }
        link := Some(target);
      }
      if clean == SETEC || StartsWith(clean, SETEC + "/") {
        InSetecMeans(clean);
        continue;
      }
      InSetecMeans(clean);
      out := out + [Header(clean, link)];
    }
    assert hs[..|hs|] == hs;
    r := Some(out + OWN);
  }

  lemma InSetecMeans(clean: string)
    ensures InSetecDir(clean) <==> clean == SETEC || StartsWith(clean, SETEC + "/")
  {
  }

  lemma WrittenAppend(hs: seq<Header>, h: Header)
    requires forall x :: x in hs ==> !LeavesRoot(x)
    ensures !LeavesRoot(h) ==>
              (forall x :: x in hs + [h] ==> !LeavesRoot(x)) && WrittenAll(hs + [h]) == WrittenAll(hs) + Written(h)
  {
    assert (hs + [h])[..|hs|] == hs;
  }

  /**
   Exactly the entries that are not the root and not under .setec are written, each
   under its clean name and with its clean link.
   */
  lemma {:induction false} WrittenIff(hs: seq<Header>, w: Header)
    requires forall h :: h in hs ==> !LeavesRoot(h)
    ensures w in WrittenAll(hs) <==>
            exists h ::
              && h in hs && Kept(Split(h.name)) != [] && Kept(Split(h.name))[0] != ".setec"
              && Clean(h.name) == Some(w.name) && w.link == (if h.link.Some? then Clean(h.link.value) else None)
  {
    hide Clean, Split, Kept, InSetecDir;
    if hs != [] {
      var init, h := hs[..|hs| - 1], hs[|hs| - 1];
      assert hs == init + [h];
      WrittenIff(init, w);
      assert !LeavesRoot(h);
      CleanParts(h.name);
      SetecFiltered(h.name);
    }
  }

  /** Every name from the image that is written is clean, and has no first part .setec. */
  lemma {:induction false} WrittenClean(hs: seq<Header>, w: Header)
    requires (forall h :: h in hs ==> !LeavesRoot(h)) && w in WrittenAll(hs)
    ensures Clean(w.name) == Some(w.name) && w.name != ""
    ensures Kept(Split(w.name)) != [] && Kept(Split(w.name))[0] != ".setec"
    ensures w.link.Some? ==> Clean(w.link.value) == w.link && w.link.value != ""
  {
    hide Clean, Split, Kept, InSetecDir;
    var init, h := hs[..|hs| - 1], hs[|hs| - 1];
    if w in WrittenAll(init) {
      WrittenClean(init, w);
    } else {
      assert w in Written(h);
      CleanIdempotent(h.name);
      CleanParts(w.name);
      SetecFiltered(w.name);
      if h.link.Some? {
        CleanIdempotent(h.link.value);
      }
    }
  }
}
