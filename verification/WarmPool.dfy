/**
 The image list of a warm pool class. The Sandbox reconciler stamps images, the
 pool reconciler merges its own list into the live one; both write with an
 optimistic lock and retry on a conflict.
 */
module WarmPool {
  import opened Names
  import opened Wrappers

  datatype Image = Image(name: string, lastUsed: int, key: string)

  const IDLE := 604800
  const MAX_IMAGES := 32

  // Lists by name

  function NamesOf(images: seq<Image>): seq<string> {
    seq(|images|, i requires 0 <= i < |images| => images[i].name)
  }

  predicate Unique(images: seq<Image>) {
    forall i, j :: 0 <= i < j < |images| ==> images[i].name != images[j].name
  }

  /** What the API server holds: sorted by name, without duplicates. */
  ghost predicate Canonical(images: seq<Image>) {
    Increasing(NamesOf(images))
  }

  /** The entry of a name. */
  function Find(images: seq<Image>, name: string): Option<Image> {
    if images == [] then None
    else if images[0].name == name then Some(images[0])
    else Find(images[1..], name)
  }

  function StampOf(images: seq<Image>, name: string): Option<int> {
    var im := Find(images, name);
    if im.Some? then Some(im.value.lastUsed) else None
  }

  lemma {:induction false} FindAt(images: seq<Image>, i: nat)
    requires Unique(images) && i < |images|
    ensures Find(images, images[i].name) == Some(images[i])
  {
    if i > 0 {
      FindAt(images[1..], i - 1);
    }
  }

  lemma {:induction false} FindIndex(images: seq<Image>, name: string) returns (i: int)
    ensures if Find(images, name).None? then i == -1 && forall j :: 0 <= j < |images| ==> images[j].name != name
            else 0 <= i < |images| && images[i] == Find(images, name).value && images[i].name == name
  {
    if images == [] {
      i := -1;
    } else if images[0].name == name {
      i := 0;
    } else {
      i := FindIndex(images[1..], name);
      i := if i == -1 then -1 else i + 1;
    }
  }

  lemma FindWithin(a: seq<Image>, b: seq<Image>, name: string)
    requires Unique(b) && forall im :: im in a ==> im in b
    ensures Find(a, name).Some? ==> Find(b, name) == Find(a, name)
  {
    hide Find;
    var i := FindIndex(a, name);
    if i >= 0 {
      assert a[i] in b;
      var k :| 0 <= k < |b| && b[k] == a[i];
      FindAt(b, k);
    }
  }

  lemma {:induction false} FindAppend(images: seq<Image>, im: Image, name: string)
    ensures Find(images + [im], name) ==
              if Find(images, name).Some? then Find(images, name) else if im.name == name then Some(im) else None
  {
    if images != [] {
      assert (images + [im])[1..] == images[1..] + [im];
      FindAppend(images[1..], im, name);
    }
  }

  lemma {:induction false} FindUpdate(images: seq<Image>, i: nat, im: Image, name: string)
    requires Unique(images) && i < |images| && images[i].name == im.name
    ensures Find(images[i := im], name) == if name == im.name then Some(im) else Find(images, name)
  {
    var after := images[i := im];
    if i > 0 {
      assert after[1..] == images[1..][i - 1 := im];
      FindUpdate(images[1..], i - 1, im, name);
    } else {
      assert after[1..] == images[1..];
    }
  }

  lemma {:induction false} FindRemove(images: seq<Image>, k: nat, name: string)
    requires Unique(images) && k < |images|
    ensures Find(images[..k] + images[k + 1..], name) == if name == images[k].name then None else Find(images, name)
  {
    var after := images[..k] + images[k + 1..];
    if k > 0 {
      assert after[1..] == images[1..][..k - 1] + images[1..][k..];
      FindRemove(images[1..], k - 1, name);
    } else {
      assert after == images[1..];
      var i := FindIndex(images[1..], name);
    }
  }

  lemma UniqueAppend(images: seq<Image>, im: Image)
    requires Unique(images) && Find(images, im.name).None?
    ensures Unique(images + [im])
  {
    hide Find;
    var i := FindIndex(images, im.name);
  }

  // Sorting by name

  function InsertByName(im: Image, s: seq<Image>): seq<Image> {
    if s == [] || Less(im.name, s[0].name) then [im] + s else [s[0]] + InsertByName(im, s[1..])
  }

  function SortByName(s: seq<Image>): seq<Image> {
    if s == [] then [] else InsertByName(s[0], SortByName(s[1..]))
  }

  lemma {:induction false} InsertNames(im: Image, s: seq<Image>)
    ensures NamesOf(InsertByName(im, s)) == Insert(im.name, NamesOf(s))
    ensures forall x :: x in InsertByName(im, s) <==> x == im || x in s
  {
    if s != [] && !Less(im.name, s[0].name) {
      InsertNames(im, s[1..]);
      assert NamesOf(s)[1..] == NamesOf(s[1..]);
      assert s == [s[0]] + s[1..];
    }
  }

  lemma {:induction false} SortNames(s: seq<Image>)
    ensures NamesOf(SortByName(s)) == Sort(NamesOf(s))
    ensures forall x :: x in SortByName(s) <==> x in s
  {
    if s != [] {
      SortNames(s[1..]);
      assert NamesOf(s)[1..] == NamesOf(s[1..]);
      InsertNames(s[0], SortByName(s[1..]));
      assert s == [s[0]] + s[1..];
    }
  }

  lemma CanonicalUnique(images: seq<Image>)
    requires Canonical(images)
    ensures Unique(images)
  {
    var names := NamesOf(images);
    forall i, j | 0 <= i < j < |images| ensures images[i].name != images[j].name {
      assert Less(names[i], names[j]);
      LessIrreflexive(names[i]);
    }
  }

  /** Sorting a list without duplicates makes it canonical and changes no entry. */
  lemma SortCanonical(s: seq<Image>)
    requires Unique(s)
    ensures Canonical(SortByName(s))
    ensures forall name :: Find(SortByName(s), name) == Find(s, name)
  {
    hide Find, SortByName, Sort;
    SortNames(s);
    assert Distinct(NamesOf(s));
    SortIncreasing(NamesOf(s));
    CanonicalUnique(SortByName(s));
    forall name ensures Find(SortByName(s), name) == Find(s, name) {
      FindWithin(SortByName(s), s, name);
      FindWithin(s, SortByName(s), name);
    }
  }

  // The stamp of a Sandbox

  method IndexOf(images: seq<Image>, name: string) returns (i: int)
    ensures if Find(images, name).None? then i == -1
            else 0 <= i < |images| && images[i] == Find(images, name).value && images[i].name == name
  {
    i := 0;
    while i < |images|
      invariant 0 <= i <= |images|
      invariant Find(images, name) == Find(images[i..], name)
    {
      assert images[i..][1..] == images[i + 1..];
      if images[i].name == name {
        return;
      }
      i := i + 1;
    }
    return -1;
  }

  /** The first entry with the oldest stamp. */
  function FirstOldest(images: seq<Image>): (k: nat)
    requires images != []
    ensures k < |images|
    ensures forall j :: 0 <= j < |images| ==> images[k].lastUsed <= images[j].lastUsed
    ensures forall j :: 0 <= j < k ==> images[k].lastUsed < images[j].lastUsed
  {
    var n := |images| - 1;
    if n == 0 then 0
    else
      var k := FirstOldest(images[..n]);
      if images[n].lastUsed < images[k].lastUsed then n else k
  }

  /** The entry that a stamp takes off the list: the first of the oldest, when a new image meets a full list. */
  function Evicted(before: seq<Image>, image: string, now: int): Option<string> {
    if Find(before, image).Some? || |before| < MAX_IMAGES then None
    else
      var all := before + [Image(image, now, "")];
      Some(all[FirstOldest(all)].name)
  }

  /** What a stamp leaves: the image at its new time, and all others, but for the evicted one. */
  ghost predicate Stamped(before: seq<Image>, image: string, now: int, after: seq<Image>) {
    forall name ::
      StampOf(after, name) ==
        if Evicted(before, image, now) == Some(name) then None
        else if name == image then Some(now) else StampOf(before, name)
  }

  method Oldest(images: seq<Image>) returns (oldest: nat)
    requires images != []
    ensures oldest == FirstOldest(images)
  {
    oldest := 0;
    for i := 0 to |images|
      invariant oldest < |images| && (i == 0 ==> oldest == 0) && (i > 0 ==> oldest == FirstOldest(images[..i]))
    {
      assert images[..i + 1][..i] == images[..i];
      if images[i].lastUsed < images[oldest].lastUsed {
        oldest := i;
      }
    }
    assert images[..|images|] == images;
  }

  /** Stamps the image, in place if it is listed; a list without duplicates stays so, and a sorted one stays sorted. */
  method StampImage(images: seq<Image>, image: string, now: int) returns (out: seq<Image>)
    ensures Unique(images) ==> Unique(out) && Stamped(images, image, now, out)
    ensures Canonical(images) ==> Canonical(out)
  {
    hide Find, Canonical, SortByName, Unique, FirstOldest, Stamped;
    CanonicalIsUnique(images);
    var i := IndexOf(images, image);
    if i >= 0 {
      var im := images[i].(lastUsed := now);
      out := images[i := im];
      StampedInPlace(images, i, im);
      return;
    }
    var added := Image(image, now, "");
    out := images + [added];
    if |out| > MAX_IMAGES {
      var oldest := Oldest(out);
      out := out[..oldest] + out[oldest + 1..];
    }
    StampedNew(images, image, now, out);
    out := SortByName(out);
  }

  lemma CanonicalIsUnique(images: seq<Image>)
    ensures Canonical(images) ==> Unique(images)
  {
    if Canonical(images) {
      CanonicalUnique(images);
    }
  }

  lemma StampedInPlace(images: seq<Image>, i: nat, im: Image)
    requires i < |images| && images[i].name == im.name
    ensures Canonical(images) ==> Canonical(images[i := im])
    ensures Unique(images) ==> Unique(images[i := im]) && Stamped(images, im.name, im.lastUsed, images[i := im])
  {
    hide Find, Canonical, Unique;
    if Canonical(images) {
      SameNames(images, i, im);
    }
    if Unique(images) {
      UniqueUpdate(images, i, im);
      FindAt(images, i);
      forall name ensures Find(images[i := im], name) == if name == im.name then Some(im) else Find(images, name) {
        FindUpdate(images, i, im, name);
      }
    }
  }

  /** A new image, before the sort. */
  lemma StampedNew(images: seq<Image>, image: string, now: int, out: seq<Image>)
    requires Find(images, image).None?
    requires var all := images + [Image(image, now, "")];
             out == if |all| > MAX_IMAGES then all[..FirstOldest(all)] + all[FirstOldest(all) + 1..] else all
    ensures Unique(images) ==>
              Canonical(SortByName(out)) && Unique(SortByName(out)) && Stamped(images, image, now, SortByName(out))
  {
    hide Find, Canonical, SortByName, Unique, FirstOldest;
    if Unique(images) {
      var added := Image(image, now, "");
      var all := images + [added];
      UniqueAppend(images, added);
      forall name ensures StampOf(all, name) == if name == image then Some(now) else StampOf(images, name) {
        FindAppend(images, added, name);
      }
      if |all| > MAX_IMAGES {
        UniqueRemove(all, FirstOldest(all));
        forall name ensures Find(out, name) == if name == all[FirstOldest(all)].name then None else Find(all, name) {
          FindRemove(all, FirstOldest(all), name);
        }
      }
      SortCanonical(out);
      CanonicalUnique(SortByName(out));
      forall name
        ensures StampOf(SortByName(out), name) ==
                  if Evicted(images, image, now) == Some(name) then None
                  else if name == image then Some(now) else StampOf(images, name)
      {
        assert Find(SortByName(out), name) == Find(out, name);
        assert StampOf(all, name) == if name == image then Some(now) else StampOf(images, name);
      }
    }
  }

  lemma SameNames(images: seq<Image>, i: nat, im: Image)
    requires Canonical(images) && i < |images| && images[i].name == im.name
    ensures Canonical(images[i := im])
  {
    assert NamesOf(images[i := im]) == NamesOf(images);
  }

  lemma UniqueRemove(images: seq<Image>, k: nat)
    requires Unique(images) && k < |images|
    ensures Unique(images[..k] + images[k + 1..])
  {
  }

  // The merge of the pool reconciler

  /** The stamp of a name after a merge: the latest of its stamps; one that only the live list has must not be idle. */
  function MergedStamp(computed: Option<int>, live: seq<Image>, name: string, now: int): Option<int> {
    if live == [] then computed
    else
      var m, l := MergedStamp(computed, live[..|live| - 1], name, now), live[|live| - 1];
      if l.name != name then m
      else if m.Some? then if l.lastUsed > m.value then Some(l.lastUsed) else m
      else if now - l.lastUsed <= IDLE then Some(l.lastUsed)
      else None
  }

  ghost predicate Merged(live: seq<Image>, computed: seq<Image>, now: int, after: seq<Image>) {
    forall name :: StampOf(after, name) == MergedStamp(StampOf(computed, name), live, name, now)
  }

  /** In a live list without duplicates: the later of the two stamps, or a live one that is not idle. */
  lemma {:induction false} MergedOnce(computed: Option<int>, live: seq<Image>, name: string, now: int)
    requires Unique(live)
    ensures MergedStamp(computed, live, name, now) ==
              var l := StampOf(live, name);
              if l.None? then computed
              else if computed.Some? then if l.value > computed.value then l else computed
              else if now - l.value <= IDLE then l else None
  {
    if live != [] {
      var init, last := live[..|live| - 1], live[|live| - 1];
      assert live == init + [last];
      MergedOnce(computed, init, name, now);
      FindAppend(init, last, name);
      var i := FindIndex(init, name);
    }
  }

  /** Joins the computed list with the live one. */
  method MergePoolImages(live: seq<Image>, computed: seq<Image>, now: int) returns (out: seq<Image>)
    ensures Unique(computed) ==> Canonical(out) && Merged(live, computed, now, out)
  {
    hide Find, Canonical, SortByName, Unique;
    out := computed;
    assert live[..0] == [];
    for k := 0 to |live|
      invariant Unique(computed) ==> Unique(out) && Merged(live[..k], computed, now, out)
    {
      assert live[..k + 1] == live[..k] + [live[k]];
      out := MergeOne(out, live[..k], live[k], computed, now);
    }
    assert live[..|live|] == live;
    if Unique(computed) {
      SortCanonical(out);
      assert forall name :: Find(SortByName(out), name) == Find(out, name);
    }
    out := SortByName(out);
  }

  method MergeOne(before: seq<Image>, ghost seen: seq<Image>, l: Image, ghost computed: seq<Image>, now: int)
    returns (out: seq<Image>)
    ensures Unique(before) && Merged(seen, computed, now, before) ==>
              Unique(out) && Merged(seen + [l], computed, now, out)
  {
    hide Find, Unique;
    out := before;
    var i := IndexOf(out, l.name);
    if i >= 0 {
      if l.lastUsed > out[i].lastUsed {
        out := out[i := out[i].(lastUsed := l.lastUsed)];
      }
    } else if now - l.lastUsed <= IDLE {
      out := out + [l];
    }
    if Unique(before) && Merged(seen, computed, now, before) {
      MergedOne(before, seen, l, computed, now, i, out);
    }
  }

  lemma MergedOne(before: seq<Image>, seen: seq<Image>, l: Image, computed: seq<Image>, now: int, i: int,
                  out: seq<Image>)
    requires Unique(before) && Merged(seen, computed, now, before)
    requires if Find(before, l.name).None? then i == -1
             else 0 <= i < |before| && before[i] == Find(before, l.name).value && before[i].name == l.name
    requires out == if i >= 0 then
                      if l.lastUsed > before[i].lastUsed then before[i := before[i].(lastUsed := l.lastUsed)]
                      else before
                    else if now - l.lastUsed <= IDLE then before + [l] else before
    ensures Unique(out) && Merged(seen + [l], computed, now, out)
  {
    hide Find, Unique;
    if i >= 0 && l.lastUsed > before[i].lastUsed {
      var im := before[i].(lastUsed := l.lastUsed);
      UniqueUpdate(before, i, im);
      forall name ensures Find(out, name) == if name == l.name then Some(im) else Find(before, name) {
        FindUpdate(before, i, im, name);
      }
    } else if i == -1 && now - l.lastUsed <= IDLE {
      UniqueAppend(before, l);
      forall name ensures Find(out, name) == if name == l.name then Some(l) else Find(before, name) {
        FindAppend(before, l, name);
      }
    }
    forall name ensures StampOf(out, name) == MergedStamp(StampOf(computed, name), seen + [l], name, now) {
      assert (seen + [l])[..|seen|] == seen;
      assert StampOf(before, name) == MergedStamp(StampOf(computed, name), seen, name, now);
    }
  }

  lemma UniqueUpdate(images: seq<Image>, i: nat, im: Image)
    requires Unique(images) && i < |images| && images[i].name == im.name
    ensures Unique(images[i := im])
  {
  }

  // The list the pool reconciler computes

  /** The first stamp of a name that is not idle. */
  function ActiveStamp(status: seq<Image>, name: string, now: int): Option<int> {
    if status == [] then None
    else
      var a, im := ActiveStamp(status[..|status| - 1], name, now), status[|status| - 1];
      if a.None? && im.name == name && now - im.lastUsed <= IDLE then Some(im.lastUsed) else a
  }

  /** It is the stamp of the first entry of the name that was asked for in the last 7 days. */
  lemma {:induction false} ActiveMeans(status: seq<Image>, name: string, now: int)
    ensures var a := ActiveStamp(status, name, now);
            && (a.None? <==>
                forall i :: 0 <= i < |status| && status[i].name == name ==> now - status[i].lastUsed > 604800)
            && (a.Some? ==>
                  exists i :: 0 <= i < |status| && status[i].name == name && status[i].lastUsed == a.value &&
                              now - a.value <= 604800 &&
                              forall j :: 0 <= j < i && status[j].name == name ==> now - status[j].lastUsed > 604800)
  {
    if status != [] {
      var init, im := status[..|status| - 1], status[|status| - 1];
      assert status == init + [im];
      ActiveMeans(init, name, now);
      var before := ActiveStamp(init, name, now);
      if before.Some? {
        var i :| 0 <= i < |init| && init[i].name == name && init[i].lastUsed == before.value &&
                 now - before.value <= 604800 &&
                 forall j :: 0 <= j < i && init[j].name == name ==> now - init[j].lastUsed > 604800;
        assert status[i] == init[i] && forall j :: 0 <= j < i ==> status[j] == init[j];
      } else {
        assert status[|init|] == im && forall j :: 0 <= j < |init| ==> status[j] == init[j];
      }
    }
  }

  /** The images asked for within the idle time, and the first image of the class; None when there is none. */
  method PoolImages(status: seq<Image>, first: Option<Image>, now: int, keyOf: string -> string)
    returns (r: Option<seq<Image>>)
    ensures r.Some? ==> r.value != [] && Unique(r.value)
    ensures forall name ::
              (if r.Some? then StampOf(r.value, name) else None) ==
                var a := ActiveStamp(status, name, now);
                if a.Some? then a
                else if first.Some? && first.value.name == name && now - first.value.lastUsed <= IDLE
                then Some(first.value.lastUsed) else None
  {
    hide Find, Unique;
    var out: seq<Image> := [];
    Nothing();
    for k := 0 to |status|
      invariant Unique(out) && forall name :: StampOf(out, name) == ActiveStamp(status[..k], name, now)
    {
      assert status[..k + 1][..k] == status[..k];
      out := AddImage(out, status[k], now, keyOf);
    }
    assert status[..|status|] == status;
    if first.Some? {
      out := AddImage(out, first.value, now, keyOf);
    }
    r := if out == [] then None else Some(out);
  }

  method AddImage(images: seq<Image>, im: Image, now: int, keyOf: string -> string) returns (out: seq<Image>)
    requires Unique(images)
    ensures Unique(out)
    ensures forall name :: StampOf(out, name) ==
              if name == im.name && StampOf(images, name).None? && now - im.lastUsed <= IDLE then Some(im.lastUsed)
              else StampOf(images, name)
  {
    hide Find, Unique;
    out := images;
    var i := IndexOf(images, im.name);
    if i >= 0 || now - im.lastUsed > IDLE {
      return;
    }
    var added := im.(key := keyOf(im.name));
    UniqueAppend(images, added);
    forall name ensures Find(images + [added], name) == if name == im.name then Some(added) else Find(images, name) {
      FindAppend(images, added, name);
    }
    out := images + [added];
  }

  lemma Nothing()
    ensures Unique([]) && forall name :: StampOf([], name) == None
  {
  }

  // The two writers and the API server

  type Writer = nat

  /** A read of the class: its version, and the list then. */
  datatype Copy = Copy(version: nat, images: Option<seq<Image>>)

  datatype World = World(clock: int, version: nat, images: Option<seq<Image>>, copies: map<Writer, Copy>)

  /** A patch carries the list it writes. */
  datatype Step =
    | Tick(span: nat)
    | Read(writer: Writer)
    | Stamp(writer: Writer, image: string, now: int, after: seq<Image>)
    | Merge(writer: Writer, computed: Option<seq<Image>>, now: int, after: seq<Image>)

  function ListOf(images: Option<seq<Image>>): seq<Image> {
    if images.Some? then images.value else []
  }

  ghost predicate Enabled(w: World, s: Step) {
    match s
    case Tick(_) => true
    case Read(_) => true
    case Stamp(r, image, now, after) =>
      && r in w.copies && now <= w.clock
      && Canonical(after) && Stamped(ListOf(w.copies[r].images), image, now, after)
    case Merge(r, computed, now, after) =>
      && r in w.copies && now <= w.clock
      && (computed.Some? ==> Canonical(after) && Merged(ListOf(w.copies[r].images), computed.value, now, after))
  }

  /** A patch lands only on the version it was made from. */
  predicate Lands(w: World, s: Step) {
    (s.Stamp? || s.Merge?) && s.writer in w.copies && w.copies[s.writer].version == w.version
  }

  function Apply(w: World, s: Step): World {
    match s
    case Tick(span) => w.(clock := w.clock + span)
    case Read(r) => w.(copies := w.copies[r := Copy(w.version, w.images)])
    case Stamp(_, _, _, after) => if Lands(w, s) then w.(version := w.version + 1, images := Some(after)) else w
    case Merge(_, computed, _, after) =>
      if Lands(w, s) then w.(version := w.version + 1, images := if computed.Some? then Some(after) else None) else w
  }

  ghost predicate Run(ws: seq<World>, steps: seq<Step>) {
    && |ws| == |steps| + 1
    && ws[0].images == None && ws[0].copies == map[]
    && forall i :: 0 <= i < |steps| ==> Enabled(ws[i], steps[i]) && ws[i + 1] == Apply(ws[i], steps[i])
  }

  ghost predicate Inv(w: World) {
    && Canonical(ListOf(w.images))
    && (forall r :: r in w.copies ==> w.copies[r].version <= w.version)
    && (forall r :: r in w.copies && w.copies[r].version == w.version ==> w.copies[r].images == w.images)
  }

  lemma StepInv(w: World, s: Step)
    requires Inv(w) && Enabled(w, s)
    ensures Inv(Apply(w, s)) && w.clock <= Apply(w, s).clock
  {
    hide Stamped, Merged, Canonical;
    assert NamesOf([]) == [];
    EmptyCanonical();
  }

  lemma EmptyCanonical()
    ensures Canonical([])
  {
  }

  lemma {:induction false} RunInv(ws: seq<World>, steps: seq<Step>, n: nat)
    requires Run(ws, steps) && n < |ws|
    ensures Inv(ws[n])
  {
    hide Apply, Enabled;
    if n == 0 {
      EmptyCanonical();
    } else {
      hide Inv;
      RunInv(ws, steps, n - 1);
      assert Enabled(ws[n - 1], steps[n - 1]) && ws[n - 1 + 1] == Apply(ws[n - 1], steps[n - 1]);
      StepInv(ws[n - 1], steps[n - 1]);
    }
  }

  /** Every list the API server ever holds is sorted and names each image once. */
  lemma AlwaysSorted(ws: seq<World>, steps: seq<Step>, n: nat)
    requires Run(ws, steps) && n < |ws| && ws[n].images.Some?
    ensures Increasing(NamesOf(ws[n].images.value))
  {
    RunInv(ws, steps, n);
  }

  /**
   The writes that take an image off the list, or turn its stamp back before t:
   a stamp for which the live list evicts it, an older stamp of the image itself,
   and a merge with a list that is nil.
   */
  predicate Drops(w: World, s: Step, image: string, t: int) {
    Lands(w, s) &&
    match s
    case Stamp(_, stamped, now, _) =>
      Evicted(ListOf(w.images), stamped, now) == Some(image) || (stamped == image && now < t)
    case Merge(_, computed, _, _) => computed.None?
    case _ => false
  }

  ghost predicate Kept(w: World, image: string, t: int) {
    var stamp := StampOf(ListOf(w.images), image);
    stamp.Some? && stamp.value >= t
  }

  /** While an image is not idle, these are exactly the ways to lose its stamp. */
  lemma KeptStep(w: World, s: Step, image: string, t: int)
    requires Inv(w) && Enabled(w, s) && Kept(w, image, t) && w.clock - t <= IDLE
    ensures Kept(Apply(w, s), image, t) <==> !Drops(w, s, image, t)
  {
    hide Canonical, Find, Evicted, MergedStamp;
    Nothing();
    CanonicalUnique(ListOf(w.images));
    if s.Merge? && s.computed.Some? && Lands(w, s) {
      MergedOnce(StampOf(s.computed.value, image), ListOf(w.images), image, s.now);
    }
  }

  /**
   A stamped image stays on the list, with a stamp at least as late, until it is
   idle, whatever the two writers do, unless a full list evicts it, the pool
   reconciler clears the pool, or a Sandbox with an older clock stamps it again.
   */
  lemma {:induction false} StampKept(ws: seq<World>, steps: seq<Step>, m: nat, n: nat, image: string, t: int)
    requires Run(ws, steps) && m <= n < |ws| && Kept(ws[m], image, t) && ws[n].clock - t <= IDLE
    requires forall k :: m <= k < n ==> !Drops(ws[k], steps[k], image, t)
    ensures Kept(ws[n], image, t)
  {
    hide Apply, Enabled, Kept, Drops;
    if m < n {
      RunInv(ws, steps, n - 1);
      assert Enabled(ws[n - 1], steps[n - 1]) && ws[n - 1 + 1] == Apply(ws[n - 1], steps[n - 1]);
      StepInv(ws[n - 1], steps[n - 1]);
      StampKept(ws, steps, m, n - 1, image, t);
      KeptStep(ws[n - 1], steps[n - 1], image, t);
    }
  }

  /** A stamp that lands is on the list at once, unless it is itself the first of the oldest on a full list. */
  lemma StampLands(ws: seq<World>, steps: seq<Step>, n: nat)
    requires Run(ws, steps) && n < |steps| && steps[n].Stamp? && Lands(ws[n], steps[n])
    ensures Kept(ws[n + 1], steps[n].image, steps[n].now) <==>
              Evicted(ListOf(ws[n].images), steps[n].image, steps[n].now) != Some(steps[n].image)
  {
    hide Canonical, Find, Evicted;
    RunInv(ws, steps, n);
    assert Enabled(ws[n], steps[n]) && ws[n + 1] == Apply(ws[n], steps[n]);
  }

  // Runs in which a stamp is lost

  lemma Push(ws: seq<World>, steps: seq<Step>, s: Step) returns (vs: seq<World>, ts: seq<Step>)
    requires Run(ws, steps) && Enabled(ws[|steps|], s)
    ensures Run(vs, ts) && ts == steps + [s] && |vs| == |ts| + 1 && vs[..|steps| + 1] == ws
    ensures vs[|ts|] == Apply(ws[|steps|], s)
  {
    hide Enabled, Apply;
    vs, ts := ws + [Apply(ws[|steps|], s)], steps + [s];
  }

  lemma OneImage(name: string, now: int)
    ensures var list := [Image(name, now, "")];
            && Canonical(list) && Stamped([], name, now, list)
            && forall n :: StampOf(list, n) == if n == name then Some(now) else None
  {
    assert [Image(name, now, "")][1..] == [];
  }

  /** A first stamp, at time 0. */
  lemma FirstStamp(name: string) returns (ws: seq<World>, steps: seq<Step>)
    ensures Run(ws, steps) && |ws| == |steps| + 1 && Kept(ws[|steps|], name, 0)
    ensures ws[|steps|].images == Some([Image(name, 0, "")]) && ws[|steps|].clock == 0
  {
    var list := [Image(name, 0, "")];
    OneImage(name, 0);
    hide Canonical, Stamped, Find;
    ws, steps := [World(0, 0, None, map[])], [];
    ws, steps := Push(ws, steps, Read(0));
    ws, steps := Push(ws, steps, Stamp(0, name, 0, list));
  }

  /** A pool reconciler that computed no image clears a stamp that it has not seen. */
  lemma ClearedInstance(name: string) returns (ws: seq<World>, steps: seq<Step>)
    ensures Run(ws, steps) && 0 < |steps| && |ws| == |steps| + 1
    ensures Kept(ws[|steps| - 1], name, 0) && !Kept(ws[|steps|], name, 0) && ws[|steps|].clock == 0
  {
    hide Canonical, Stamped, Merged, Find;
    ws, steps := FirstStamp(name);
    var before := ws[|steps|];
    ws, steps := Push(ws, steps, Read(1));
    assert Kept(ws[|steps|], name, 0);
    var n := |steps|;
    ws, steps := Push(ws, steps, Merge(1, None, 0, []));
    assert ws[n] == ws[..n + 1][n];
    Nothing();
  }

  /** A Sandbox that read its clock earlier turns a stamp back. */
  lemma TurnedBackInstance(name: string) returns (ws: seq<World>, steps: seq<Step>)
    ensures Run(ws, steps) && 0 < |steps| && |ws| == |steps| + 1
    ensures Kept(ws[|steps| - 1], name, 0) && !Kept(ws[|steps|], name, 0) && ws[|steps|].clock == 0
  {
    var before, after := [Image(name, 0, "")], [Image(name, -1, "")];
    OneImage(name, 0);
    OneImage(name, -1);
    assert Evicted(before, name, -1) == None;
    assert Stamped(before, name, -1, after);
    hide Canonical, Stamped, Find;
    ws, steps := FirstStamp(name);
    ws, steps := Push(ws, steps, Read(1));
    var n := |steps|;
    ws, steps := Push(ws, steps, Stamp(1, name, -1, after));
    assert ws[n] == ws[..n + 1][n];
  }

  /** A new image that is no older than the rest takes the place of the first of the oldest, from 32 images on. */
  lemma FullListEvicts(images: seq<Image>, image: string, now: int)
    requires Unique(images) && Find(images, image).None?
    requires forall im :: im in images ==> im.lastUsed <= now
    ensures if |images| < 32 then Evicted(images, image, now) == None
            else Evicted(images, image, now) == Some(images[FirstOldest(images)].name)
  {
    hide Find, Unique;
    if |images| >= 32 {
      var all := images + [Image(image, now, "")];
      var k, o := FirstOldest(all), FirstOldest(images);
      assert all[..|images|] == images;
      assert images[o] in images;
    }
  }

  function Repeat(n: nat): string {
    seq(n, _ => 'a')
  }

  lemma {:induction false} RepeatLess(m: nat, n: nat)
    requires m < n
    ensures Less(Repeat(m), Repeat(n))
  {
    if m > 0 {
      RepeatLess(m - 1, n - 1);
      assert Repeat(m)[1..] == Repeat(m - 1) && Repeat(n)[1..] == Repeat(n - 1);
    }
  }

  /** A full list whose images were all just asked for loses the first of them to one more. */
  lemma EvictedInstance() returns (images: seq<Image>)
    ensures Canonical(images) && |images| == MAX_IMAGES && forall im :: im in images ==> im.lastUsed == 0
    ensures Evicted(images, "b", 0) == Some(images[0].name)
  {
    images := seq(MAX_IMAGES, i requires 0 <= i < MAX_IMAGES => Image(Repeat(i), 0, ""));
    var names := NamesOf(images);
    forall i, j | 0 <= i < j < |names| ensures Less(names[i], names[j]) {
      RepeatLess(i, j);
    }
    CanonicalUnique(images);
    var k := FindIndex(images, "b");
    assert forall i :: 0 < i < |images| ==> images[i].name[0] == 'a';
    assert Find(images, "b").None?;
    FullListEvicts(images, "b", 0);
  }
}
