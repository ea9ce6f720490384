/**
 Moving files: a copy, and then, unless source and destination are the same path, the removal of the source.

 All stores together are one map from objects to contents. A path is a string that names an object, and several
 paths may name one: a doubled slash or a symbolic link is enough. A step may stop anywhere, by an exception or
 because the process dies, and a request whose reply is lost may have had its effect; so the states in which a
 move may stop are all the states it passes through.
 */
module Moves {
  import opened Basics

  /** The segments of a path as it is written, the first of which names the store. */
  type Path = seq<string>

  /** The identity of an object: the store it is in, and its key there. */
  type Id = string

  type Files = map<Id, Bytes>

  // ----- whether there is anything to copy -----

  /** The checksums a path reports for its content, normalised, or None if it does not implement them; and
      the digest that is computed from the bytes otherwise. */
  datatype Reports = Reports(sums: (Path, Bytes) -> Option<map<string, string>>, digest: Bytes -> string)

  function FirstCommon(a: map<string, string>, b: map<string, string>): Option<string> {
    if "sha256" in a && "sha256" in b then Some("sha256")
    else if "sha1" in a && "sha1" in b then Some("sha1")
    else if "md5" in a && "md5" in b then Some("md5")
    else None
  }

  /** `needs_copy` for two files that both exist. */
  predicate Differs(r: Reports, p: Path, x: Bytes, q: Path, y: Bytes) {
    var a, b := r.sums(p, x), r.sums(q, y);
    if a.Some? && b.Some? && FirstCommon(a.value, b.value).Some? then
      var algorithm := FirstCommon(a.value, b.value).value;
      a.value[algorithm] != b.value[algorithm]
    else r.digest(x) != r.digest(y)
  }

  /** What is reported equal is equal. */
  ghost predicate Honest(r: Reports) {
    forall p, x, q, y :: !Differs(r, p, x, q, y) ==> x == y
  }

  /** The digest is one that is computed from the bytes: each algorithm has its own, and different bytes have
      different ones. */
  ghost predicate Computes(r: Reports, value: (string, Bytes) -> string) {
    && (forall p, x, a :: r.sums(p, x).Some? && a in r.sums(p, x).value ==> r.sums(p, x).value[a] == value(a, x))
    && (forall a, x, y :: value(a, x) == value(a, y) ==> x == y)
    && (forall x, y :: r.digest(x) == r.digest(y) ==> x == y)
  }

  /** When every checksum that is reported was computed from the bytes, files are told apart exactly if they
      differ, whichever checksums their stores happen to report. */
  lemma ComputedSumsDecide(r: Reports, value: (string, Bytes) -> string, p: Path, x: Bytes, q: Path, y: Bytes)
    requires Computes(r, value)
    ensures Differs(r, p, x, q, y) <==> x != y
  {
    var a, b := r.sums(p, x), r.sums(q, y);
    if a.Some? && b.Some? && FirstCommon(a.value, b.value).Some? {
      var algorithm := FirstCommon(a.value, b.value).value;
      assert a.value[algorithm] == value(algorithm, x) && b.value[algorithm] == value(algorithm, y);
    }
  }

  /** The strongest checksum that both stores report decides, whatever the others say; bytes are read only if
      they have none in common. */
  lemma StrongestDecides(r: Reports, p: Path, x: Bytes, q: Path, y: Bytes)
    requires r.sums(p, x).Some? && r.sums(q, y).Some?
    ensures var a, b := r.sums(p, x).value, r.sums(q, y).value;
            && ("sha256" in a && "sha256" in b ==> (Differs(r, p, x, q, y) <==> a["sha256"] != b["sha256"]))
            && (!("sha256" in a && "sha256" in b) && "sha1" in a && "sha1" in b ==>
                  (Differs(r, p, x, q, y) <==> a["sha1"] != b["sha1"]))
            && (a.Keys * b.Keys == {"md5"} ==> (Differs(r, p, x, q, y) <==> a["md5"] != b["md5"]))
            && (a.Keys !! b.Keys ==> (Differs(r, p, x, q, y) <==> r.digest(x) != r.digest(y)))
  {
    var a, b := r.sums(p, x).value, r.sums(q, y).value;
    assert forall k :: k in a.Keys * b.Keys <==> k in a && k in b;
  }

  // ----- moving one file -----

  /** What the paths name, what the backends report, and the arguments of the call. */
  datatype Setting = Setting(names: Path -> Id, reports: Reports, force: bool, removeSrc: bool)

  /** Writing the destination: done, or stopped with the destination untouched or in whatever state. */
  datatype Write = Written | WriteStops(touched: bool, leaves: Option<Bytes>)

  datatype Removal = Done | RemovalStops(landed: bool)

  /** How the requests for one file end. */
  datatype Step = Step(checked: bool, write: Write, notified: bool, removal: Removal)

  function Put(files: Files, id: Id, content: Option<Bytes>): Files {
    if content.Some? then files[id := content.value] else files - {id}
  }

  predicate NeedsCopy(c: Setting, files: Files, src: Path, dst: Path) {
    var p, q := c.names(src), c.names(dst);
    q !in files || (p in files && Differs(c.reports, src, files[p], dst, files[q]))
  }

  /** The files after one move, and whether it ended normally. */
  function MoveOne(c: Setting, files: Files, src: Path, dst: Path, s: Step): (Files, bool) {
    var p, q := c.names(src), c.names(dst);
    if src == dst then (files, true)
    else if !s.checked || p !in files then (files, false)
    else
      var needsCopy := NeedsCopy(c, files, src, dst);
      if needsCopy && q in files && !c.force then (files, false)
      else if needsCopy && s.write.WriteStops? then
        (if s.write.touched then Put(files, q, s.write.leaves) else files, false)
      else
        var copied := if needsCopy then files[q := files[p]] else files;
        if !s.notified then (copied, false)
        else if !c.removeSrc then (copied, true)
        else if s.removal.Done? then (copied - {p}, true)
        else (if s.removal.landed then copied - {p} else copied, false)
  }

  predicate HasAt(files: Files, id: Id, x: Bytes) {
    id in files && files[id] == x
  }

  ghost predicate Untouched(before: Files, after: Files, id: Id) {
    (id in after <==> id in before) && (id in before ==> after[id] == before[id])
  }

  /** A check that says "equal" of different contents. */
  predicate Misjudged(c: Setting, files: Files, src: Path, dst: Path) {
    var p, q := c.names(src), c.names(dst);
    p in files && q in files && files[p] != files[q] && !Differs(c.reports, src, files[p], dst, files[q])
  }

  /** Two ways to write one path: the comparison of strings does not see that they name one object. */
  predicate Aliased(c: Setting, src: Path, dst: Path) {
    src != dst && c.names(src) == c.names(dst)
  }

  /** Wherever a move stops, the bytes are at the source or at the destination; if it ends normally they are
      at the destination, and the source is gone exactly if it was to be removed and is another path; unless
      the removal was reached, the source is untouched; and no third object changes. */
  lemma MoveConserves(c: Setting, files: Files, src: Path, dst: Path, s: Step)
    requires c.names(src) in files && !Misjudged(c, files, src, dst) && !Aliased(c, src, dst)
    ensures var (after, ok) := MoveOne(c, files, src, dst, s);
            var p, q, x := c.names(src), c.names(dst), files[c.names(src)];
            && (HasAt(after, p, x) || HasAt(after, q, x))
            && (ok ==> HasAt(after, q, x) && (p in after <==> !c.removeSrc || src == dst))
            && (!ok && s.removal != RemovalStops(true) ==> HasAt(after, p, x))
            && (forall id :: id != p && id != q ==> Untouched(files, after, id))
  {
  }

  /** The object is at the destination, and reported different from the source. */
  predicate InTheWay(c: Setting, files: Files, src: Path, dst: Path) {
    var p, q := c.names(src), c.names(dst);
    p in files && q in files && Differs(c.reports, src, files[p], dst, files[q])
  }

  /** Without force an object that is already at the destination keeps its content at every end of a move, and
      with force too if it was reported equal. */
  lemma DestinationKept(c: Setting, files: Files, src: Path, dst: Path, s: Step)
    requires c.names(dst) in files && c.names(src) != c.names(dst)
    ensures !c.force || !InTheWay(c, files, src, dst) ==> Untouched(files, MoveOne(c, files, src, dst, s).0, c.names(dst))
  {
  }

  /** A move that is not asked to overwrite raises when other content is in the way, and changes nothing. */
  lemma RefusesToOverwrite(c: Setting, files: Files, src: Path, dst: Path, s: Step)
    requires !c.force && src != dst && InTheWay(c, files, src, dst)
    ensures MoveOne(c, files, src, dst, s) == (files, false)
  {
  }

  /** What a move needs in order to end normally: both files are looked at, nothing is in the way that may not be
      overwritten, what has to be written is written, and the rest of its requests succeed. */
  predicate Goes(c: Setting, files: Files, src: Path, dst: Path, s: Step) {
    || src == dst
    || (
         && s.checked && c.names(src) in files
         && (InTheWay(c, files, src, dst) ==> c.force && s.write.Written?)
         && (c.names(dst) !in files ==> s.write.Written?)
         && s.notified && (c.removeSrc ==> s.removal.Done?))
  }

  lemma EndsNormallyExactly(c: Setting, files: Files, src: Path, dst: Path, s: Step)
    ensures MoveOne(c, files, src, dst, s).1 <==> Goes(c, files, src, dst, s)
  {
  }

  /** A move that ends normally and removes its source has kept the bytes exactly if the destination was not
      misjudged beforehand and is not the source under another name. */
  lemma MoveKeepsExactly(c: Setting, files: Files, src: Path, dst: Path, s: Step)
    requires c.names(src) in files && c.removeSrc && MoveOne(c, files, src, dst, s).1
    ensures var after, p, q, x := MoveOne(c, files, src, dst, s).0, c.names(src), c.names(dst), files[c.names(src)];
            var kept := HasAt(after, p, x) || HasAt(after, q, x);
            kept <==> !Misjudged(c, files, src, dst) && (src == dst || c.names(src) != c.names(dst))
  {
  }

  /** Without removal, a normal end leaves the bytes at the destination exactly if it was not misjudged. */
  lemma CopyArrivesExactly(c: Setting, files: Files, src: Path, dst: Path, s: Step)
    requires c.names(src) in files && !c.removeSrc && MoveOne(c, files, src, dst, s).1
    ensures var after, x := MoveOne(c, files, src, dst, s).0, files[c.names(src)];
            && HasAt(after, c.names(src), x)
            && (HasAt(after, c.names(dst), x) <==> !Misjudged(c, files, src, dst))
  {
  }

  /** Moving an object to another name of itself finds equal contents, copies nothing, and deletes the only
      copy; with or without force, and it ends normally. */
  lemma MoveOntoAliasLosesData(c: Setting, src: Path, dst: Path, x: Bytes)
    requires Aliased(c, src, dst) && c.removeSrc && !Differs(c.reports, src, x, dst, x)
    ensures MoveOne(c, map[c.names(src) := x], src, dst, Step(true, Written, true, Done)) == (map[], true)
  {
    var files: Files := map[c.names(src) := x];
    assert files - {c.names(src)} == map[];
  }

  /** Two Azure blobs without a Content-MD5 both report an empty md5: a move of one onto the other, without
      force, then deletes the source and copies nothing. */
  lemma EmptyChecksumsLoseData(names: Path -> Id, src: Path, dst: Path, x: Bytes, y: Bytes)
    requires names(src) != names(dst) && x != y
    ensures var r := Reports((p, content) => Some(map["md5" := ""]), content => "");
            var files: Files := map[names(src) := x, names(dst) := y];
            MoveOne(Setting(names, r, false, true), files, src, dst, Step(true, Written, true, Done))
              == (map[names(dst) := y], true)
  {
    var files: Files := map[names(src) := x, names(dst) := y];
    assert files - {names(src)} == map[names(dst) := y];
  }

  // ----- moving many -----

  /** An object that the walk over a tree comes to, and where it goes. It is hidden if its name is also the
      prefix of other names: then the walk takes it for a directory and leaves the object alone. */
  datatype Found = Found(path: Path, target: Path, hidden: bool)

  /** Moves one after the other; the first that does not end normally ends them all. `net(k)` is how the
      requests of the k-th go. */
  function MoveAll(c: Setting, files: Files, es: seq<Found>, net: nat -> Step, k: nat): (Files, bool, nat)
    decreases |es|
  {
    if es == [] then (files, true, k)
    else if es[0].hidden then MoveAll(c, files, es[1..], net, k + 1)
    else
      var (after, ok) := MoveOne(c, files, es[0].path, es[0].target, net(k));
      if !ok then (after, false, k + 1)
      else MoveAll(c, after, es[1..], net, k + 1)
  }

  /** No object is named twice. */
  ghost predicate Separate(c: Setting, es: seq<Found>) {
    && (forall i, j :: 0 <= i < j < |es| ==>
          c.names(es[i].path) != c.names(es[j].path) && c.names(es[i].target) != c.names(es[j].target))
    && (forall i, j :: 0 <= i < |es| && 0 <= j < |es| ==> c.names(es[i].path) != c.names(es[j].target))
  }

  ghost predicate AllPresent(c: Setting, files: Files, es: seq<Found>) {
    forall i :: 0 <= i < |es| ==> c.names(es[i].path) in files
  }

  ghost predicate Kept(c: Setting, before: Files, after: Files, e: Found) {
    var p, q := c.names(e.path), c.names(e.target);
    p in before && (HasAt(after, p, before[p]) || HasAt(after, q, before[p]))
  }

  ghost predicate Arrived(c: Setting, before: Files, after: Files, e: Found) {
    var p, q := c.names(e.path), c.names(e.target);
    p in before && HasAt(after, q, before[p]) && (p in after <==> !c.removeSrc)
  }

  /** A move that is carried out reads or writes the object. */
  ghost predicate Mentioned(c: Setting, es: seq<Found>, id: Id) {
    exists i :: 0 <= i < |es| && !es[i].hidden && (c.names(es[i].path) == id || c.names(es[i].target) == id)
  }

  lemma MentionedTail(c: Setting, es: seq<Found>, id: Id)
    requires es != [] && !Mentioned(c, es, id)
    ensures !Mentioned(c, es[1..], id)
    ensures es[0].hidden || (c.names(es[0].path) != id && c.names(es[0].target) != id)
  {
    var tail := es[1..];
    forall i | 0 <= i < |tail| && !tail[i].hidden ensures c.names(tail[i].path) != id && c.names(tail[i].target) != id {
      assert es[i + 1] == tail[i];
    }
  }

  lemma {:induction false} OthersUntouched(c: Setting, files: Files, es: seq<Found>, net: nat -> Step, k: nat, id: Id)
    requires !Mentioned(c, es, id)
    ensures Untouched(files, MoveAll(c, files, es, net, k).0, id)
    decreases |es|
  {
    if es != [] {
      MentionedTail(c, es, id);
      var (after, ok) := if es[0].hidden then (files, true) else MoveOne(c, files, es[0].path, es[0].target, net(k));
      assert Untouched(files, after, id);
      hide Mentioned, MoveOne;
      OthersUntouched(c, after, es[1..], net, k + 1, id);
    }
  }

  lemma SeparateTail(c: Setting, es: seq<Found>)
    requires es != [] && Separate(c, es)
    ensures Separate(c, es[1..])
    ensures !Mentioned(c, es[1..], c.names(es[0].path)) && !Mentioned(c, es[1..], c.names(es[0].target))
    ensures c.names(es[0].path) != c.names(es[0].target)
  {
    var tail := es[1..];
    forall i, j | 0 <= i < j < |tail|
      ensures c.names(tail[i].path) != c.names(tail[j].path) && c.names(tail[i].target) != c.names(tail[j].target)
    {
      assert es[i + 1] == tail[i] && es[j + 1] == tail[j];
    }
    forall i, j | 0 <= i < |tail| && 0 <= j < |tail| ensures c.names(tail[i].path) != c.names(tail[j].target) {
      assert es[i + 1] == tail[i] && es[j + 1] == tail[j];
    }
    forall i | 0 <= i < |tail|
      ensures c.names(tail[i].path) != c.names(es[0].path) && c.names(tail[i].target) != c.names(es[0].path)
      ensures c.names(tail[i].path) != c.names(es[0].target) && c.names(tail[i].target) != c.names(es[0].target)
    {
      assert es[i + 1] == tail[i];
    }
  }

  /** One move between separate objects, seen from the entries that follow. */
  lemma RestPresent(c: Setting, files: Files, es: seq<Found>, s: Step)
    requires es != [] && Separate(c, es) && AllPresent(c, files, es) && Honest(c.reports)
    ensures var first := if es[0].hidden then files else MoveOne(c, files, es[0].path, es[0].target, s).0;
            forall j :: 0 <= j < |es[1..]| ==>
              c.names(es[1..][j].path) in first && first[c.names(es[1..][j].path)] == files[c.names(es[1..][j].path)]
  {
    MoveConserves(c, files, es[0].path, es[0].target, s);
    forall j | 0 <= j < |es[1..]|
      ensures var p := c.names(es[1..][j].path); p in files && p != c.names(es[0].path) && p != c.names(es[0].target)
    {
      assert es[1..][j] == es[j + 1];
      assert c.names(es[0].path) != c.names(es[j + 1].path) && c.names(es[j + 1].path) != c.names(es[0].target);
    }
    hide MoveOne, Separate;
  }

  /** Wherever a sequence of moves between separate objects stops, every file is whole at its source or at its
      destination; if it ends normally all have arrived. */
  lemma {:induction false} MoveAllConserves(c: Setting, files: Files, es: seq<Found>, net: nat -> Step, k: nat, i: nat)
    requires Honest(c.reports) && Separate(c, es) && AllPresent(c, files, es) && i < |es| && !es[i].hidden
    ensures var (after, ok, n) := MoveAll(c, files, es, net, k);
            Kept(c, files, after, es[i]) && (ok ==> Arrived(c, files, after, es[i]))
    decreases |es|
  {
    var (first, ok) := if es[0].hidden then (files, true) else MoveOne(c, files, es[0].path, es[0].target, net(k));
    var tail := es[1..];
    SeparateTail(c, es);
    RestPresent(c, files, es, net(k));
    MoveConserves(c, files, es[0].path, es[0].target, net(k));
    hide MoveOne, Mentioned, Separate, Honest;
    if ok {
      if i == 0 {
        OthersUntouched(c, first, tail, net, k + 1, c.names(es[0].path));
        OthersUntouched(c, first, tail, net, k + 1, c.names(es[0].target));
      } else {
        assert tail[i - 1] == es[i];
        MoveAllConserves(c, first, tail, net, k + 1, i - 1);
      }
    }
  }

  /** Without force no object that was there before is overwritten, wherever a sequence of moves stops: one that is
      not a source is as it was, and if nothing is removed the sources are too. */
  lemma {:induction false} NothingOverwritten(c: Setting, files: Files, es: seq<Found>, net: nat -> Step, k: nat, id: Id)
    requires !c.force && id in files
    requires c.removeSrc ==> forall i :: 0 <= i < |es| && !es[i].hidden ==> c.names(es[i].path) != id
    ensures Untouched(files, MoveAll(c, files, es, net, k).0, id)
    decreases |es|
  {
    if es != [] {
      var (after, ok) := if es[0].hidden then (files, true) else MoveOne(c, files, es[0].path, es[0].target, net(k));
      assert Untouched(files, after, id) by {
        CopyKeepsSource(c, files, es[0].path, es[0].target, net(k));
        if id == c.names(es[0].target) && id != c.names(es[0].path) {
          DestinationKept(c, files, es[0].path, es[0].target, net(k));
        }
      }
      assert forall i :: 0 <= i < |es[1..]| ==> es[1..][i] == es[i + 1];
      hide MoveOne;
      NothingOverwritten(c, after, es[1..], net, k + 1, id);
    }
  }

  /** A copy without force leaves its source alone, even if the destination is another name for it. */
  lemma CopyKeepsSource(c: Setting, files: Files, src: Path, dst: Path, s: Step)
    ensures !c.force && !c.removeSrc ==> forall id :: id in files ==> Untouched(files, MoveOne(c, files, src, dst, s).0, id)
    ensures forall id :: id != c.names(src) && id != c.names(dst) ==> Untouched(files, MoveOne(c, files, src, dst, s).0, id)
  {
  }

  /** A move that is carried out has the object for its source. */
  ghost predicate IsSource(c: Setting, es: seq<Found>, id: Id) {
    exists i :: 0 <= i < |es| && !es[i].hidden && c.names(es[i].path) == id
  }

  /** Every move of the sequence goes, judged by the files as they are before the first of them. */
  ghost predicate AllGo(c: Setting, files: Files, es: seq<Found>, net: nat -> Step, k: nat) {
    forall i :: 0 <= i < |es| && !es[i].hidden ==> Goes(c, files, es[i].path, es[i].target, net(k + i))
  }

  lemma AllGoNext(c: Setting, files: Files, next: Files, es: seq<Found>, net: nat -> Step, k: nat)
    requires es != []
    requires forall i :: 0 < i < |es| ==>
               Untouched(files, next, c.names(es[i].path)) && Untouched(files, next, c.names(es[i].target))
    ensures AllGo(c, files, es, net, k) <==>
              (es[0].hidden || Goes(c, files, es[0].path, es[0].target, net(k))) && AllGo(c, next, es[1..], net, k + 1)
  {
    var tail := es[1..];
    forall i | 0 < i < |es|
      ensures tail[i - 1] == es[i]
              && (Goes(c, files, es[i].path, es[i].target, net(k + i)) <==>
                    Goes(c, next, tail[i - 1].path, tail[i - 1].target, net(k + 1 + (i - 1))))
    {
    }
  }

  /** A sequence of moves between separate objects ends normally exactly if every move in it goes. */
  lemma {:induction false} AllEndNormallyExactly(c: Setting, files: Files, es: seq<Found>, net: nat -> Step, k: nat)
    requires Separate(c, es)
    ensures MoveAll(c, files, es, net, k).1 <==> AllGo(c, files, es, net, k)
    decreases |es|
  {
    if es != [] {
      var (after, ok) := if es[0].hidden then (files, true) else MoveOne(c, files, es[0].path, es[0].target, net(k));
      EndsNormallyExactly(c, files, es[0].path, es[0].target, net(k));
      SeparateTail(c, es);
      FirstTouchesOwn(c, files, es, net(k));
      AllGoNext(c, files, after, es, net, k);
      hide MoveOne, Goes, Separate, AllGo;
      if ok {
        AllEndNormallyExactly(c, after, es[1..], net, k + 1);
      }
    }
  }

  lemma FirstTouchesOwn(c: Setting, files: Files, es: seq<Found>, s: Step)
    requires es != [] && Separate(c, es)
    ensures var after := if es[0].hidden then files else MoveOne(c, files, es[0].path, es[0].target, s).0;
            forall i :: 0 < i < |es| ==>
              Untouched(files, after, c.names(es[i].path)) && Untouched(files, after, c.names(es[i].target))
  {
    CopyKeepsSource(c, files, es[0].path, es[0].target, s);
    hide MoveOne, Untouched;
  }

  /** A hidden object stays where it is, and nothing is written where it would have gone. */
  lemma HiddenStays(c: Setting, files: Files, es: seq<Found>, net: nat -> Step, k: nat, i: nat)
    requires Separate(c, es) && i < |es| && es[i].hidden
    ensures var after := MoveAll(c, files, es, net, k).0;
            Untouched(files, after, c.names(es[i].path)) && Untouched(files, after, c.names(es[i].target))
  {
    OthersUntouched(c, files, es, net, k, c.names(es[i].path));
    OthersUntouched(c, files, es, net, k, c.names(es[i].target));
  }

  lemma {:induction false} MoveAllAppend(c: Setting, files: Files, a: seq<Found>, b: seq<Found>, net: nat -> Step, k: nat)
    ensures var (after, ok, n) := MoveAll(c, files, a, net, k);
            && MoveAll(c, files, a + b, net, k) == (if ok then MoveAll(c, after, b, net, n) else (after, ok, n))
            && (ok ==> n == k + |a|)
    decreases |a|
  {
    if a == [] {
      assert a + b == b;
    } else {
      assert (a + b)[1..] == a[1..] + b;
      var (after, ok) := if a[0].hidden then (files, true) else MoveOne(c, files, a[0].path, a[0].target, net(k));
      hide MoveOne;
      MoveAllAppend(c, after, a[1..], b, net, k + 1);
    }
  }

  /** Moving a tree onto itself leaves everything as it is. */
  lemma {:induction false} SamePathsUntouched(c: Setting, files: Files, es: seq<Found>, net: nat -> Step, k: nat)
    requires forall i :: 0 <= i < |es| ==> es[i].path == es[i].target
    ensures MoveAll(c, files, es, net, k) == (files, true, k + |es|)
    decreases |es|
  {
    if es != [] {
      assert forall i :: 0 <= i < |es[1..]| ==> es[1..][i] == es[i + 1];
      SamePathsUntouched(c, files, es[1..], net, k + 1);
    }
  }

  // ----- moves whose objects overlap -----

  /** Sources differ, destinations differ, and nothing is moved onto itself; but one file may go where another
      is yet to be fetched. */
  ghost predicate DistinctEnds(c: Setting, es: seq<Found>) {
    && (forall i, j :: 0 <= i < j < |es| ==>
          c.names(es[i].path) != c.names(es[j].path) && c.names(es[i].target) != c.names(es[j].target))
    && (forall i :: 0 <= i < |es| ==> c.names(es[i].path) != c.names(es[i].target))
  }

  /** The files when the first `t` entries have been dealt with. */
  function StateAt(c: Setting, files: Files, es: seq<Found>, net: nat -> Step, k: nat, t: nat): Files
    requires t <= |es|
  {
    MoveAll(c, files, es[..t], net, k).0
  }

  /** The files before and after one entry that did not stop. */
  ghost predicate Dealt(c: Setting, before: Files, after: Files, e: Found, s: Step) {
    if e.hidden then after == before else MoveOne(c, before, e.path, e.target, s) == (after, true)
  }

  lemma PrefixEnds(c: Setting, files: Files, es: seq<Found>, net: nat -> Step, k: nat, t: nat)
    requires t <= |es| && MoveAll(c, files, es, net, k).1
    ensures MoveAll(c, files, es[..t], net, k).1 && MoveAll(c, files, es[..t], net, k).2 == k + t
  {
    assert es == es[..t] + es[t..];
    hide MoveAll;
    MoveAllAppend(c, files, es[..t], es[t..], net, k);
  }

  lemma StateNext(c: Setting, files: Files, es: seq<Found>, net: nat -> Step, k: nat, t: nat)
    requires t < |es| && MoveAll(c, files, es, net, k).1
    ensures var before, after := StateAt(c, files, es, net, k, t), StateAt(c, files, es, net, k, t + 1);
            Dealt(c, before, after, es[t], net(k + t))
  {
    PrefixEnds(c, files, es, net, k, t);
    PrefixEnds(c, files, es, net, k, t + 1);
    assert es[..t + 1] == es[..t] + [es[t]];
    MoveAllAppend(c, files, es[..t], [es[t]], net, k);
    OneEntry(c, StateAt(c, files, es, net, k, t), es[t], net, k + t);
    hide MoveAll, MoveOne, Dealt;
  }

  lemma OneEntry(c: Setting, files: Files, e: Found, net: nat -> Step, k: nat)
    requires MoveAll(c, files, [e], net, k).1
    ensures Dealt(c, files, MoveAll(c, files, [e], net, k).0, e, net(k))
  {
    assert [e][1..] == [];
    hide MoveOne;
  }

  /** What one normal end between two objects does. */
  lemma MoveEffect(c: Setting, files: Files, src: Path, dst: Path, s: Step)
    requires Honest(c.reports) && c.names(src) in files && c.names(src) != c.names(dst)
    requires MoveOne(c, files, src, dst, s).1
    ensures var after, p, q := MoveOne(c, files, src, dst, s).0, c.names(src), c.names(dst);
            && HasAt(after, q, files[p]) && (p in after <==> !c.removeSrc)
            && (forall id :: id != q && (id != p || !c.removeSrc) ==> Untouched(files, after, id))
  {
  }

  /** An object that the entry does not remove. */
  lemma DealtWith(c: Setting, before: Files, after: Files, e: Found, s: Step, id: Id)
    requires Honest(c.reports) && Dealt(c, before, after, e, s)
    requires c.names(e.path) in before && c.names(e.path) != c.names(e.target)
    ensures !e.hidden && c.names(e.target) == id ==> HasAt(after, id, before[c.names(e.path)])
    ensures !e.hidden && c.names(e.path) == id ==> (id in after <==> !c.removeSrc) && (id in after ==> after[id] == before[id])
    ensures e.hidden || (c.names(e.target) != id && c.names(e.path) != id) ==> Untouched(before, after, id)
  {
    if !e.hidden {
      MoveEffect(c, before, e.path, e.target, s);
    }
  }

  /** Entry `j` puts other bytes where file `i` is. */
  ghost predicate Overwrites(c: Setting, files: Files, es: seq<Found>, net: nat -> Step, k: nat, j: nat, i: nat) {
    && j < |es| && i < |es| && c.names(es[i].path) in files
    && !es[j].hidden && c.names(es[j].target) == c.names(es[i].path)
    && !HasAt(StateAt(c, files, es, net, k, j), c.names(es[j].path), files[c.names(es[i].path)])
  }

  /** No entry before `t` puts other bytes where file `i` is. */
  ghost predicate Intact(c: Setting, files: Files, es: seq<Found>, net: nat -> Step, k: nat, t: nat, i: nat) {
    forall j :: 0 <= j < t ==> !Overwrites(c, files, es, net, k, j, i)
  }

  /** With distinct destinations only one entry can go where file `i` is. */
  lemma IntactNext(c: Setting, files: Files, es: seq<Found>, net: nat -> Step, k: nat, t: nat, i: nat)
    requires DistinctEnds(c, es) && t < |es| && i < |es|
    ensures Intact(c, files, es, net, k, t + 1, i) <==>
            Intact(c, files, es, net, k, t, i) && !Overwrites(c, files, es, net, k, t, i)
    ensures c.names(es[t].target) == c.names(es[i].path) ==> Intact(c, files, es, net, k, t, i)
  {
    hide StateAt;
  }

  lemma SourceStep(c: Setting, files: Files, es: seq<Found>, net: nat -> Step, k: nat, i: nat, t: nat)
    requires Honest(c.reports) && DistinctEnds(c, es) && t < i < |es| && c.names(es[i].path) in files
    requires Dealt(c, StateAt(c, files, es, net, k, t), StateAt(c, files, es, net, k, t + 1), es[t], net(k + t))
    requires c.names(es[t].path) in StateAt(c, files, es, net, k, t)
    requires var now, p := StateAt(c, files, es, net, k, t), c.names(es[i].path);
             p in now && (HasAt(now, p, files[p]) <==> Intact(c, files, es, net, k, t, i))
    ensures var now, p := StateAt(c, files, es, net, k, t + 1), c.names(es[i].path);
            p in now && (HasAt(now, p, files[p]) <==> Intact(c, files, es, net, k, t + 1, i))
  {
    var before, after := StateAt(c, files, es, net, k, t), StateAt(c, files, es, net, k, t + 1);
    IntactNext(c, files, es, net, k, t, i);
    assert c.names(es[t].path) != c.names(es[i].path) && c.names(es[t].path) != c.names(es[t].target);
    hide StateAt, Intact, DistinctEnds, Dealt, Honest;
    DealtWith(c, before, after, es[t], net(k + t), c.names(es[i].path));
  }

  lemma StateStart(c: Setting, files: Files, es: seq<Found>, net: nat -> Step, k: nat)
    ensures StateAt(c, files, es, net, k, 0) == files
  {
    assert es[..0] == [];
  }

  /** Up to its own move, a source is there; it holds its bytes unless an earlier move has overwritten them. */
  lemma {:induction false} SourceUntil(c: Setting, files: Files, es: seq<Found>, net: nat -> Step, k: nat, i: nat, t: nat)
    requires Honest(c.reports) && DistinctEnds(c, es) && AllPresent(c, files, es)
    requires MoveAll(c, files, es, net, k).1 && t <= i < |es|
    ensures var now, p := StateAt(c, files, es, net, k, t), c.names(es[i].path);
            p in now && p in files && (HasAt(now, p, files[p]) <==> Intact(c, files, es, net, k, t, i))
    decreases t
  {
    hide StateAt, Honest, DistinctEnds, Overwrites, MoveOne, MoveAll, Dealt;
    if t > 0 {
      SourceUntil(c, files, es, net, k, i, t - 1);
      SourceUntil(c, files, es, net, k, t - 1, t - 1);
      StateNext(c, files, es, net, k, t - 1);
      hide Intact;
      SourceStep(c, files, es, net, k, i, t - 1);
    } else {
      StateStart(c, files, es, net, k);
    }
  }

  /** Later moves take file `i` away from its destination again. */
  ghost predicate TakenOn(c: Setting, es: seq<Found>, i: nat, t: nat) {
    exists j :: i < j < t && j < |es| && !es[j].hidden && c.names(es[j].path) == c.names(es[i].target)
  }

  lemma TakenNext(c: Setting, es: seq<Found>, i: nat, t: nat)
    requires i < t < |es|
    ensures TakenOn(c, es, i, t + 1) <==>
            TakenOn(c, es, i, t) || (!es[t].hidden && c.names(es[t].path) == c.names(es[i].target))
  {
  }

  lemma NotTakenYet(c: Setting, es: seq<Found>, i: nat)
    requires i < |es|
    ensures !TakenOn(c, es, i, i + 1)
  {
  }

  /** What file `i` became is at its destination until a later move takes it on. */
  lemma {:induction false} DestinationSince(c: Setting, files: Files, es: seq<Found>, net: nat -> Step, k: nat, i: nat,
                                            t: nat)
    requires Honest(c.reports) && DistinctEnds(c, es) && AllPresent(c, files, es)
    requires MoveAll(c, files, es, net, k).1 && i < t <= |es| && !es[i].hidden
    ensures var moved, now := StateAt(c, files, es, net, k, i), StateAt(c, files, es, net, k, t);
            && c.names(es[i].path) in moved
            && (c.names(es[i].target) in now <==> !(c.removeSrc && TakenOn(c, es, i, t)))
            && (c.names(es[i].target) in now ==> now[c.names(es[i].target)] == moved[c.names(es[i].path)])
    decreases t
  {
    hide StateAt, MoveAll, MoveOne, Dealt, TakenOn, Intact, Honest, AllPresent;
    var e := es[t - 1];
    var before, after := StateAt(c, files, es, net, k, t - 1), StateAt(c, files, es, net, k, t);
    SourceUntil(c, files, es, net, k, i, i);
    SourceUntil(c, files, es, net, k, t - 1, t - 1);
    StateNext(c, files, es, net, k, t - 1);
    assert c.names(e.path) != c.names(e.target) && (t - 1 > i ==> c.names(e.target) != c.names(es[i].target));
    hide DistinctEnds;
    if t - 1 > i {
      DestinationSince(c, files, es, net, k, i, t - 1);
      TakenNext(c, es, i, t - 1);
    } else {
      NotTakenYet(c, es, i);
    }
    DealtWith(c, before, after, e, net(k + t - 1), c.names(es[i].target));
  }

  /** Overlapping moves that all end normally: a file is overwritten before its turn comes exactly if an earlier
      move goes to where it is and carries other bytes; and at the end it is at its destination exactly if it
      was not, and, when moving, no later move fetches it from there again. */
  lemma OverlapLosesExactly(c: Setting, files: Files, es: seq<Found>, net: nat -> Step, k: nat, i: nat)
    requires Honest(c.reports) && DistinctEnds(c, es) && AllPresent(c, files, es)
    requires MoveAll(c, files, es, net, k).1 && i < |es| && !es[i].hidden
    ensures var p, q := c.names(es[i].path), c.names(es[i].target);
            var intact := Intact(c, files, es, net, k, i, i);
            && (HasAt(StateAt(c, files, es, net, k, i), p, files[p]) <==> intact)
            && (HasAt(MoveAll(c, files, es, net, k).0, q, files[p]) <==>
                  intact && !(c.removeSrc && TakenOn(c, es, i, |es|)))
  {
    SourceUntil(c, files, es, net, k, i, i);
    DestinationSince(c, files, es, net, k, i, |es|);
    assert es[..|es|] == es;
    hide MoveAll, Intact, TakenOn;
  }

  // ----- trees -----

  /** What a listing shows: a file, or a directory with its children. It is `named` if its name is that of an object
      as well, as can be in an object store. */
  datatype Node = File | Dir(named: bool, children: seq<Child>)
  datatype Child = Child(name: string, node: Node)

  ghost predicate WellFormed(n: Node) {
    n.Dir? ==>
      && (forall i, j :: 0 <= i < j < |n.children| ==> n.children[i].name != n.children[j].name)
      && (forall i :: 0 <= i < |n.children| ==> WellFormed(n.children[i].node))
  }

  /** The objects of a tree in the order of the walk, each with where it goes. On overlapping trees this is the
      walk of listings taken beforehand, while the program lists each directory when it comes to it. */
  function Walk(n: Node, src: Path, dst: Path): seq<Found>
    decreases n, 0
  {
    match n
    case File => [Found(src, dst, false)]
    case Dir(_, _) => WalkTo(n, |n.children|, src, dst)
  }

  function Marker(n: Node, src: Path, dst: Path): seq<Found> {
    if n.Dir? && n.named then [Found(src, dst, true)] else []
  }

  /** A directory's own object, and what is in the first `i` children. */
  function WalkTo(n: Node, i: nat, src: Path, dst: Path): seq<Found>
    requires n.Dir? && i <= |n.children|
    decreases n, 0, i
  {
    if i == 0 then Marker(n, src, dst)
    else
      var c := n.children[i - 1];
      WalkTo(n, i - 1, src, dst) + Walk(c.node, src + [c.name], dst + [c.name])
  }

  /** The entry goes from below `src` to the same place below `dst`. */
  predicate Under(e: Found, src: Path, dst: Path) {
    src <= e.path && dst <= e.target && e.path[|src|..] == e.target[|dst|..]
  }

  lemma UnderChild(e: Found, src: Path, dst: Path, name: string)
    requires Under(e, src + [name], dst + [name])
    ensures Under(e, src, dst) && |e.path| > |src| && |e.target| > |dst|
    ensures e.path[|src|] == name && e.target[|dst|] == name
  {
    assert e.path[|src|..] == [name] + e.path[|src| + 1..];
    assert e.target[|dst|..] == [name] + e.target[|dst| + 1..];
  }

  lemma {:induction false} WalkUnder(n: Node, src: Path, dst: Path, k: nat)
    requires k < |Walk(n, src, dst)|
    ensures Under(Walk(n, src, dst)[k], src, dst)
    decreases n, 0
  {
    if n.Dir? {
      var j := WalkToUnder(n, |n.children|, src, dst, k);
      if j.Some? {
        UnderChild(Walk(n, src, dst)[k], src, dst, n.children[j.value].name);
      }
    }
  }

  /** Each object of a directory is its own, or below one of its children. */
  lemma {:induction false} WalkToUnder(n: Node, i: nat, src: Path, dst: Path, k: nat) returns (j: Option<nat>)
    requires n.Dir? && i <= |n.children| && k < |WalkTo(n, i, src, dst)|
    ensures j.None? ==> WalkTo(n, i, src, dst)[k] == Found(src, dst, true)
    ensures j.Some? ==> j.value < i && Under(WalkTo(n, i, src, dst)[k], src + [n.children[j.value].name],
                                             dst + [n.children[j.value].name])
    decreases n, 0, i
  {
    if i == 0 {
      return None;
    }
    var front, c := WalkTo(n, i - 1, src, dst), n.children[i - 1];
    if k < |front| {
      j := WalkToUnder(n, i - 1, src, dst, k);
    } else {
      j := Some(i - 1);
      WalkUnder(c.node, src + [c.name], dst + [c.name], k - |front|);
    }
  }

  /** Two trees neither of which contains the other. */
  predicate Disjoint(src: Path, dst: Path) {
    !(src <= dst) && !(dst <= src)
  }

  lemma PrefixesCompare(a: Path, b: Path, p: Path)
    requires a <= p && b <= p
    ensures a <= b || b <= a
  {
    if |a| <= |b| {
      assert a == p[..|a|] == b[..|a|];
    } else {
      assert b == p[..|b|] == a[..|b|];
    }
  }

  lemma DisjointBelow(src: Path, dst: Path, p: Path)
    requires Disjoint(src, dst) && src <= p
    ensures !(dst <= p)
  {
    if dst <= p {
      PrefixesCompare(src, dst, p);
    }
  }

  /** No path is written twice. */
  ghost predicate DistinctPaths(es: seq<Found>) {
    && (forall i, j :: 0 <= i < j < |es| ==> es[i].path != es[j].path && es[i].target != es[j].target)
    && (forall i, j :: 0 <= i < |es| && 0 <= j < |es| ==> es[i].path != es[j].target)
  }

  /** Objects below children of different names are separate, and separate from the directory's own. */
  lemma ApartByName(a: Found, b: Found, src: Path, dst: Path, x: Option<string>, y: string)
    requires Disjoint(src, dst) && x != Some(y) && Under(b, src + [y], dst + [y])
    requires if x.None? then a == Found(src, dst, true) else Under(a, src + [x.value], dst + [x.value])
    ensures a.path != b.path && a.target != b.target && a.path != b.target && b.path != a.target
  {
    if x.Some? {
      UnderChild(a, src, dst, x.value);
    }
    UnderChild(b, src, dst, y);
    DisjointBelow(src, dst, a.path);
    DisjointBelow(src, dst, b.path);
  }

  lemma DisjointChild(src: Path, dst: Path, name: string)
    requires Disjoint(src, dst)
    ensures Disjoint(src + [name], dst + [name])
  {
    assert src <= src + [name] && dst <= dst + [name];
    DisjointBelow(src, dst, src + [name]);
    DisjointBelow(dst, src, dst + [name]);
  }

  lemma DistinctConcat(a: seq<Found>, b: seq<Found>)
    requires DistinctPaths(a) && DistinctPaths(b)
    requires forall i, j | 0 <= i < |a| && 0 <= j < |b| ::
               a[i].path != b[j].path && a[i].target != b[j].target && a[i].path != b[j].target && b[j].path != a[i].target
    ensures DistinctPaths(a + b)
  {
  }

  /** Walking a tree to a disjoint place writes no path twice. */
  lemma {:induction false} WalkDistinct(n: Node, src: Path, dst: Path)
    requires WellFormed(n) && Disjoint(src, dst)
    ensures DistinctPaths(Walk(n, src, dst))
    decreases n, 0
  {
    if n.Dir? {
      WalkToDistinct(n, |n.children|, src, dst);
    }
  }

  lemma {:induction false} WalkToDistinct(n: Node, i: nat, src: Path, dst: Path)
    requires n.Dir? && i <= |n.children| && WellFormed(n) && Disjoint(src, dst)
    ensures DistinctPaths(WalkTo(n, i, src, dst))
    decreases n, 0, i
  {
    if i > 0 {
      var front, c := WalkTo(n, i - 1, src, dst), n.children[i - 1];
      var back := Walk(c.node, src + [c.name], dst + [c.name]);
      WalkToDistinct(n, i - 1, src, dst);
      DisjointChild(src, dst, c.name);
      WalkDistinct(c.node, src + [c.name], dst + [c.name]);
      forall k, l | 0 <= k < |front| && 0 <= l < |back|
        ensures front[k].path != back[l].path && front[k].target != back[l].target
                && front[k].path != back[l].target && back[l].path != front[k].target
      {
        var j := WalkToUnder(n, i - 1, src, dst, k);
        WalkUnder(c.node, src + [c.name], dst + [c.name], l);
        ApartByName(front[k], back[l], src, dst, if j.Some? then Some(n.children[j.value].name) else None, c.name);
      }
      hide DistinctPaths, Under, Disjoint, WellFormed;
      DistinctConcat(front, back);
    }
  }

  ghost predicate WrittenIn(es: seq<Found>, p: Path) {
    exists i :: 0 <= i < |es| && (es[i].path == p || es[i].target == p)
  }

  /** The paths of the walk are so many objects: no two of them are ways to write one. */
  ghost predicate NoAliases(c: Setting, es: seq<Found>) {
    forall p, q :: WrittenIn(es, p) && WrittenIn(es, q) && p != q ==> c.names(p) != c.names(q)
  }

  /** Without aliases, moving a tree to a disjoint place names no object twice. */
  lemma WalkSeparate(c: Setting, n: Node, src: Path, dst: Path)
    requires WellFormed(n) && Disjoint(src, dst) && NoAliases(c, Walk(n, src, dst))
    ensures Separate(c, Walk(n, src, dst))
  {
    WalkDistinct(n, src, dst);
    DistinctAreSeparate(c, Walk(n, src, dst));
  }

  lemma DistinctAreSeparate(c: Setting, es: seq<Found>)
    requires DistinctPaths(es) && NoAliases(c, es)
    ensures Separate(c, es)
  {
    forall i | 0 <= i < |es| ensures WrittenIn(es, es[i].path) && WrittenIn(es, es[i].target) {
    }
    hide WrittenIn;
    forall i, j | 0 <= i < j < |es|
      ensures c.names(es[i].path) != c.names(es[j].path) && c.names(es[i].target) != c.names(es[j].target)
    {
    }
    forall i, j | 0 <= i < |es| && 0 <= j < |es| ensures c.names(es[i].path) != c.names(es[j].target) {
    }
  }

  lemma {:induction false} WalkSame(n: Node, p: Path, k: nat)
    requires k < |Walk(n, p, p)|
    ensures Walk(n, p, p)[k].path == Walk(n, p, p)[k].target
  {
    WalkUnder(n, p, p, k);
    var e := Walk(n, p, p)[k];
    assert e.path == p + e.path[|p|..] && e.target == p + e.target[|p|..];
  }

  /** If the trees overlap a forced move can lose a file: in a/x, a/b/x moved to a/b, the first move overwrites
      what the second was to move. */
  lemma OverlapCanLose(c: Setting, x: Bytes, y: Bytes, net: nat -> Step)
    requires x != y && Honest(c.reports) && c.force && c.removeSrc
    requires c.names(["a", "x"]) != c.names(["a", "b", "x"]) && c.names(["a", "b", "x"]) != c.names(["a", "b", "b", "x"])
    requires net(0) == net(1) == Step(true, Written, true, Done)
    ensures var n := Dir(false, [Child("x", File), Child("b", Dir(false, [Child("x", File)]))]);
            var files: Files := map[c.names(["a", "x"]) := x, c.names(["a", "b", "x"]) := y];
            var after := MoveAll(c, files, Walk(n, ["a"], ["a", "b"]), net, 0).0;
            AllPresent(c, files, Walk(n, ["a"], ["a", "b"])) && forall id :: id in after ==> after[id] != y
  {
    var sub := Dir(false, [Child("x", File)]);
    var n := Dir(false, [Child("x", File), Child("b", sub)]);
    var src, dst: Path := ["a"], ["a", "b"];
    var first := Found(["a", "x"], ["a", "b", "x"], false);
    var second := Found(["a", "b", "x"], ["a", "b", "b", "x"], false);
    var p, q, r := c.names(first.path), c.names(first.target), c.names(second.target);
    var files: Files := map[p := x, q := y];
    WalkOneFile("x", src + ["b"], dst + ["b"]);
    assert src + ["b"] + ["x"] == second.path && dst + ["b"] + ["x"] == second.target;
    WalkNext(n, 0, src, dst);
    WalkNext(n, 1, src, dst);
    assert src + ["x"] == first.path && dst + ["x"] == first.target;
    assert WalkTo(n, 0, src, dst) == [] && Walk(File, first.path, first.target) == [first];
    var es := Walk(n, src, dst);
    assert es == [first] + [second];
    assert es[1..] == [second] && [second][1..] == [];
    hide Walk, WalkTo, Differs;
    var one := MoveOne(c, files, first.path, first.target, net(0)).0;
    assert Differs(c.reports, first.path, x, first.target, y);
    assert one == map[q := x];
    var two := MoveOne(c, one, second.path, second.target, net(1)).0;
    assert two == map[r := x];
    assert MoveAll(c, one, [second], net, 1).0 == two;
  }

  lemma WalkOneFile(name: string, src: Path, dst: Path)
    ensures Walk(Dir(false, [Child(name, File)]), src, dst) == [Found(src + [name], dst + [name], false)]
  {
    var n := Dir(false, [Child(name, File)]);
    WalkNext(n, 0, src, dst);
    assert WalkTo(n, 1, src, dst) == WalkTo(n, 0, src, dst) + Walk(File, src + [name], dst + [name]);
    assert WalkTo(n, 0, src, dst) == [];
  }

  lemma WalkNext(n: Node, i: nat, src: Path, dst: Path)
    requires n.Dir? && i < |n.children|
    ensures var c := n.children[i];
            WalkTo(n, i + 1, src, dst) == WalkTo(n, i, src, dst) + Walk(c.node, src + [c.name], dst + [c.name])
  {
  }

  // ----- the stores as an object -----

  /** The walk finds all objects of the tree. `inside` are the objects that listing the source directory shows:
      those of the walk, except that a directory does not show an object of its own name. */
  ghost predicate Lists(c: Setting, files: Files, es: seq<Found>, src: Path, inside: Id -> bool) {
    && AllPresent(c, files, es)
    && (forall k :: 0 <= k < |es| ==> (inside(c.names(es[k].path)) <==> es[k].path != src))
    && (forall k :: 0 <= k < |es| && es[k].path != es[k].target ==> !inside(c.names(es[k].target)))
    && (forall id :: id in files && inside(id) ==> exists k :: 0 <= k < |es| && c.names(es[k].path) == id)
  }

  /** Below the source lies an object whose name is also a directory's. */
  ghost predicate HidesBelow(es: seq<Found>, src: Path) {
    exists k :: 0 <= k < |es| && es[k].hidden && es[k].path != src
  }

  /** When all visible files have gone, what is left inside is what was hidden. */
  lemma LeftInside(c: Setting, before: Files, after: Files, es: seq<Found>, src: Path, inside: Id -> bool)
    requires Lists(c, before, es, src, inside) && c.removeSrc
    requires forall k :: 0 <= k < |es| ==> es[k].path != es[k].target
    requires forall k :: 0 <= k < |es| && !es[k].hidden ==> Arrived(c, before, after, es[k])
    requires forall k :: 0 <= k < |es| && es[k].hidden ==> Untouched(before, after, c.names(es[k].path))
    requires forall id :: !Mentioned(c, es, id) ==> Untouched(before, after, id)
    ensures (exists id :: id in after && inside(id)) <==> HidesBelow(es, src)
  {
    if HidesBelow(es, src) {
      var k :| 0 <= k < |es| && es[k].hidden && es[k].path != src;
      assert c.names(es[k].path) in after && inside(c.names(es[k].path));
    }
    forall id | Mentioned(c, es, id) ensures id !in after || !inside(id) {
      var i :| 0 <= i < |es| && !es[i].hidden && (c.names(es[i].path) == id || c.names(es[i].target) == id);
      assert Arrived(c, before, after, es[i]);
    }
    if id :| id in after && inside(id) {
      assert Untouched(before, after, id);
      var k :| 0 <= k < |es| && c.names(es[k].path) == id;
      assert es[k].hidden;
    }
  }

  class World {
    var files: Files

    constructor (files: Files)
      ensures this.files == files
    {
      this.files := files;
    }

    /** One file: find out whether to copy, copy, report, and then remove the source. */
    method MoveFile(c: Setting, src: Path, dst: Path, s: Step) returns (ok: bool)
      modifies this
      ensures (files, ok) == MoveOne(c, old(files), src, dst, s)
      ensures ok <==> Goes(c, old(files), src, dst, s)
      ensures !c.force && c.names(dst) in old(files) && c.names(src) != c.names(dst) ==>
                Untouched(old(files), files, c.names(dst))
    {
      if src == dst {
        return true;
      }
      var p, q := c.names(src), c.names(dst);
      if !s.checked || p !in files {
        return false;
      }
      var destinationExists := q in files;
      var needsCopy := !destinationExists || Differs(c.reports, src, files[p], dst, files[q]);
      if needsCopy {
        if destinationExists && !c.force {
          return false;
        }
        if s.write.WriteStops? {
          if s.write.touched {
            files := Put(files, q, s.write.leaves);
          }
          return false;
        }
        files := files[q := files[p]];
      }
      if !s.notified {
        return false;
      }
      ok := true;
      if c.removeSrc {
        if s.removal.Done? || s.removal.landed {
          files := files - {p};
        }
        ok := s.removal.Done?;
      }
    }

    /** A directory moves its children one after the other, and never an object of its own name. */
    method MoveRecursive(c: Setting, n: Node, src: Path, dst: Path, net: nat -> Step, k: nat)
      returns (ok: bool, next: nat)
      modifies this
      ensures (files, ok, next) == MoveAll(c, old(files), Walk(n, src, dst), net, k)
      decreases n
    {
      hide MoveOne;
      if n.File? {
        assert Walk(n, src, dst)[1..] == [];
        ok := MoveFile(c, src, dst, net(k));
        return ok, k + 1;
      }
      next := if n.named then k + 1 else k;
      assert [Found(src, dst, true)][1..] == [];
      for i := 0 to |n.children|
        invariant (files, true, next) == MoveAll(c, old(files), WalkTo(n, i, src, dst), net, k)
      {
        var child := n.children[i];
        WalkNext(n, i, src, dst);
        MoveAllAppend(c, old(files), WalkTo(n, i, src, dst), Walk(child.node, src + [child.name], dst + [child.name]), net, k);
        ok, next := MoveRecursive(c, child.node, src + [child.name], dst + [child.name], net, next);
        if !ok {
          StopsEarly(c, old(files), n, i + 1, src, dst, net, k);
          return;
        }
      }
      ok := true;
    }

    /** A whole tree: move its files, then remove the source directory, which must show nothing any more. An
        object whose name is also a directory's is neither moved nor noticed, except that it keeps the directory
        above it from being removed. A tree moved onto itself stays as it is. */
    method MoveTree(c: Setting, n: Node, src: Path, dst: Path, net: nat -> Step, inside: Id -> bool, listed: bool)
      returns (ok: bool)
      requires n.Dir? && WellFormed(n) && Lists(c, files, Walk(n, src, dst), src, inside) && Honest(c.reports)
      requires src == dst || (Disjoint(src, dst) && NoAliases(c, Walk(n, src, dst)))
      modifies this
      ensures var es := Walk(n, src, dst);
              && (forall k :: 0 <= k < |es| && !es[k].hidden ==> Kept(c, old(files), files, es[k]))
              && (ok && src != dst ==> forall k :: 0 <= k < |es| && !es[k].hidden ==> Arrived(c, old(files), files, es[k]))
              && (forall k :: 0 <= k < |es| && es[k].hidden ==>
                    Untouched(old(files), files, c.names(es[k].path)) && Untouched(old(files), files, c.names(es[k].target)))
              && (forall id :: !Mentioned(c, es, id) ==> Untouched(old(files), files, id))
              && (!c.force ==> forall id :: id in old(files) && !(c.removeSrc && IsSource(c, es, id)) ==>
                    Untouched(old(files), files, id))
              && (!c.removeSrc && src != dst ==> (ok <==> AllGo(c, old(files), es, net, 0)))
              && (c.removeSrc && src != dst ==>
                    (ok <==> AllGo(c, old(files), es, net, 0) && listed && !HidesBelow(es, src)))
              && (ok && c.removeSrc && src != dst ==> forall id :: inside(id) ==> id !in files)
              && (src == dst ==> ok && files == old(files))
    {
      ghost var before, es := files, Walk(n, src, dst);
      var next;
      ok, next := MoveRecursive(c, n, src, dst, net, 0);
      if src == dst {
        TreeOntoItself(c, before, n, src, net);
        return;
      }
      WalkSeparate(c, n, src, dst);
      AllMoved(c, before, es, net);
      AllEndNormallyExactly(c, before, es, net, 0);
      NoneOverwritten(c, before, es, net);
      if ok && c.removeSrc {
        assert forall k :: 0 <= k < |es| ==> es[k].path != es[k].target;
        hide Walk, WellFormed, Separate, Honest, Under, Disjoint, Lists, Arrived, Untouched, Mentioned, MoveAll, NoAliases, AllGo;
        LeftInside(c, before, files, es, src, inside);
        var empty := forall id :: id in files ==> !inside(id);
        ok := listed && empty;
      }
    }
  }

  lemma NoneOverwritten(c: Setting, files: Files, es: seq<Found>, net: nat -> Step)
    ensures !c.force ==> forall id :: id in files && !(c.removeSrc && IsSource(c, es, id)) ==>
              Untouched(files, MoveAll(c, files, es, net, 0).0, id)
  {
    forall id | !c.force && id in files && !(c.removeSrc && IsSource(c, es, id))
      ensures Untouched(files, MoveAll(c, files, es, net, 0).0, id)
    {
      NothingOverwritten(c, files, es, net, 0, id);
    }
  }

  /** What a sequence of moves between separate objects does to each of them, and to the others. */
  lemma AllMoved(c: Setting, files: Files, es: seq<Found>, net: nat -> Step)
    requires Honest(c.reports) && Separate(c, es) && AllPresent(c, files, es)
    ensures var (after, ok, k) := MoveAll(c, files, es, net, 0);
            && (forall k :: 0 <= k < |es| && !es[k].hidden ==>
                  Kept(c, files, after, es[k]) && (ok ==> Arrived(c, files, after, es[k])))
            && (forall k :: 0 <= k < |es| && es[k].hidden ==>
                  Untouched(files, after, c.names(es[k].path)) && Untouched(files, after, c.names(es[k].target)))
            && (forall id :: !Mentioned(c, es, id) ==> Untouched(files, after, id))
  {
    hide MoveAll, Kept, Arrived, Untouched, Mentioned, Separate, Honest, AllPresent;
    var (after, ok, n) := MoveAll(c, files, es, net, 0);
    forall k | 0 <= k < |es| && !es[k].hidden
      ensures Kept(c, files, after, es[k]) && (ok ==> Arrived(c, files, after, es[k]))
    {
      MoveAllConserves(c, files, es, net, 0, k);
    }
    forall k | 0 <= k < |es| && es[k].hidden
      ensures Untouched(files, after, c.names(es[k].path)) && Untouched(files, after, c.names(es[k].target))
    {
      HiddenStays(c, files, es, net, 0, k);
    }
    forall id | !Mentioned(c, es, id) ensures Untouched(files, after, id) {
      OthersUntouched(c, files, es, net, 0, id);
    }
  }

  lemma TreeOntoItself(c: Setting, files: Files, n: Node, p: Path, net: nat -> Step)
    requires AllPresent(c, files, Walk(n, p, p))
    ensures var (after, ok, k) := MoveAll(c, files, Walk(n, p, p), net, 0);
            ok && after == files && forall i :: 0 <= i < |Walk(n, p, p)| ==> Kept(c, files, after, Walk(n, p, p)[i])
  {
    var es := Walk(n, p, p);
    forall i | 0 <= i < |es| ensures es[i].path == es[i].target {
      WalkSame(n, p, i);
    }
    SamePathsUntouched(c, files, es, net, 0);
  }

  lemma {:induction false} StopsEarly(c: Setting, files: Files, n: Node, i: nat, src: Path, dst: Path, net: nat -> Step,
                                      k: nat)
    requires n.Dir? && i <= |n.children|
    requires !MoveAll(c, files, WalkTo(n, i, src, dst), net, k).1
    ensures MoveAll(c, files, Walk(n, src, dst), net, k) == MoveAll(c, files, WalkTo(n, i, src, dst), net, k)
    decreases |n.children| - i
  {
    if i < |n.children| {
      var child := n.children[i];
      MoveAllAppend(c, files, WalkTo(n, i, src, dst), Walk(child.node, src + [child.name], dst + [child.name]), net, k);
      StopsEarly(c, files, n, i + 1, src, dst, net, k);
    }
  }
}
