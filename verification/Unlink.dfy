/**
 Deleting a scanned file by name while others may rename, replace or remove entries of the
 same directory. The file is first moved into a private directory, checked there, and only
 then deleted; anything else that was caught is put back without overwriting.
 */
module RaceSafeUnlink {
  import opened Options

  type Name = string

  /** What stat identifies a file by. */
  datatype Inode = Inode(dev: nat, ino: nat)

  datatype Kind = Regular | Directory | OtherKind

  type Entries = map<Name, Inode>

  const PROBE_SOURCE: Name := ".rename-noreplace-src"
  const PROBE_TARGET: Name := ".rename-noreplace-dst"
  const MAX_PRIVATE_NAMES: nat := 1000

  function Get(net: map<Inode, int>, i: Inode): int {
    if i in net then net[i] else 0
  }

  /** What a rename to `name` overwrites: nothing when the entry there is the same file. */
  function Lost(entries: Entries, name: Name, i: Inode): seq<Inode> {
    if name in entries && entries[name] != i then [entries[name]] else []
  }

  lemma NothingLost(entries: Entries, name: Name, i: Inode)
    ensures name !in entries ==> Lost(entries, name, i) == []
  {
  }

  function OneLess(net: map<Inode, int>, lost: seq<Inode>): map<Inode, int> {
    if lost == [] then net else net[lost[0] := Get(net, lost[0]) - 1]
  }

  /**
   The parent directory, which others can change at any time, and the directories with
   mode 0700 of this user, whose contents nobody else can change. The ghost fields record
   what this process did: how many names it added to or took from each object, which objects
   it put under a name of the parent, which entries it replaced, which directories it removed.
   */
  class FileSystem {
    const kindOf: Inode -> Kind
    const guarded: set<Name>           // names of the parent that others leave alone
    const quiet: bool                  // nobody interferes unasked (OthersBind, OthersMove) and no call fails
    var parent: Entries
    var own: map<Inode, Entries>
    ghost var net: map<Inode, int>
    ghost var placed: seq<(Name, Inode)>
    ghost var replaced: seq<Inode>
    ghost var removedDirs: seq<Inode>

    ghost predicate Valid()
      reads this
    {
      forall d :: d in own ==> kindOf(d) == Directory
    }

    constructor (kindOf: Inode -> Kind, guarded: set<Name>, quiet: bool, parent: Entries)
      ensures Valid() && this.kindOf == kindOf && this.guarded == guarded && this.quiet == quiet &&
              this.parent == parent
      ensures own == map[] && net == map[] && placed == [] && replaced == [] && removedDirs == []
    {
      this.kindOf, this.guarded, this.quiet, this.parent := kindOf, guarded, quiet, parent;
      own, net, placed, replaced, removedDirs := map[], map[], [], [], [];
    }

    static predicate SameOn(a: Entries, b: Entries, names: set<Name>) {
      forall n :: n in names ==> (n in a <==> n in b) && (n in a && n in b ==> a[n] == b[n])
    }

    /** Others change the parent in any way that leaves the guarded names alone. */
    method Interfere()
      requires Valid()
      modifies this`parent
      ensures SameOn(old(parent), parent, guarded) && (quiet ==> parent == old(parent))
    {
      assert SameOn(parent, parent, guarded);
      var p: Entries :| SameOn(parent, p, guarded);
      if !quiet {
        parent := p;
      }
    }

    /** Whether the next call fails for a reason of its own */
    method Fails() returns (fails: bool)
      ensures quiet ==> !fails
    {
      fails := *;
      if quiet {
        fails := false;
      }
    }

    /** fstatat on a name of the parent */
    method StatAt(name: Name) returns (found: Option<Inode>)
      requires Valid()
      modifies this`parent
      ensures SameOn(old(parent), parent, guarded)
      ensures found.Some? ==> name in parent && parent[name] == found.value
      ensures quiet ==> parent == old(parent) && (found.None? ==> name !in parent)
    {
      Interfere();
      var fails := Fails();
      found := if fails || name !in parent then None else Some(parent[name]);
    }

    /** Gives a name of the parent to an object; an entry that was there is lost. */
    method Bind(name: Name, i: Inode)
      modifies this`parent, this`replaced
      ensures parent == old(parent)[name := i]
      ensures replaced == old(replaced) + if name in old(parent) then [old(parent)[name]] else []
    {
      if name in parent {
        replaced := replaced + [parent[name]];
      }
      parent := parent[name := i];
    }

    /** mkdirat with mode 0700 in the parent; the number of the new directory is unused so far */
    method MakeDir(name: Name, unused: Inode) returns (made: bool, taken: bool)
      requires Valid() && unused !in own && kindOf(unused) == Directory
      modifies this`parent, this`own, this`replaced
      ensures Valid() && replaced == old(replaced)
      ensures made ==> SameOn(old(parent), parent, guarded - {name}) &&
                       name in parent && parent[name] == unused && own == old(own)[unused := map[]]
      ensures !made ==> SameOn(old(parent), parent, guarded) && own == old(own)
      ensures quiet ==> made == !taken && taken == (name in old(parent))
      ensures quiet ==> parent == if made then old(parent)[name := unused] else old(parent)
    {
      Interfere();
      var fails := Fails();
      taken := name in parent;
      made := !fails && !taken;
      if made {
        Bind(name, unused);
        own := own[unused := map[]];
      }
    }

    /** renameat of a name of the parent into a private directory; an entry that is there under that name is lost */
    method CaptureInto(name: Name, d: Inode) returns (caught: Option<Inode>)
      requires Valid() && d in own
      modifies this`parent, this`own, this`replaced, this`net
      ensures Valid()
      ensures SameOn(old(parent), parent, guarded - {name})
      ensures own.Keys == old(own).Keys && forall k :: k in own && k != d ==> own[k] == old(own)[k]
      ensures caught.None? ==> own == old(own) && replaced == old(replaced) && net == old(net)
      ensures caught.Some? ==> own[d] == old(own)[d][name := caught.value]
      ensures caught.Some? ==>
                var lost := Lost(old(own)[d], name, caught.value);
                replaced == old(replaced) + lost && net == OneLess(old(net), lost)
      ensures caught.Some? && name !in old(own)[d] ==> name !in parent
      ensures quiet && name in old(parent) && old(parent)[name] != d && Fits(old(own)[d], name, old(parent)[name]) ==>
                caught == Some(old(parent)[name]) && parent == old(parent) - {name}
    {
      Interfere();
      var fails := Fails();
      // a directory cannot be moved into itself
      if fails || name !in parent || parent[name] == d {
        return None;
      }
      var i := parent[name];
      if name in own[d] && own[d][name] == i {
        // two names of one file: rename succeeds and does nothing
        return Some(i);
      }
      if !Fits(own[d], name, i) {
        return None;
      }
      var lost := Lost(own[d], name, i);
      replaced, net := replaced + lost, OneLess(net, lost);
      parent := parent - {name};
      own := own[d := own[d][name := i]];
      caught := Some(i);
    }

    /** A file can replace a file, and a directory an empty directory. */
    predicate Fits(entries: Entries, name: Name, i: Inode)
      reads this`own
    {
      name in entries ==>
        var x := entries[name];
        x != i && (kindOf(x) == Directory <==> kindOf(i) == Directory) && (x in own ==> own[x] == map[])
    }

    /** What others may do: give a name to another object, or move an entry to another name. */
    method OthersBind(name: Name, i: Inode)
      requires name !in guarded
      modifies this`parent
      ensures parent == old(parent)[name := i] && SameOn(old(parent), parent, guarded)
    {
      parent := parent[name := i];
    }

    method OthersMove(from: Name, to: Name)
      requires from !in guarded && to !in guarded && from in parent && from != to
      modifies this`parent
      ensures parent == (old(parent) - {from})[to := old(parent)[from]] && SameOn(old(parent), parent, guarded)
    {
      parent := (parent - {from})[to := parent[from]];
    }

    /** linkat of a captured entry back to the parent */
    method LinkBack(d: Inode, name: Name) returns (linked: bool, taken: bool)
      requires Valid() && d in own && name in own[d]
      modifies this`parent, this`net, this`placed, this`replaced
      ensures SameOn(old(parent), parent, guarded - {name}) && replaced == old(replaced)
      ensures linked ==> net == old(net)[own[d][name] := Get(old(net), own[d][name]) + 1]
      ensures linked ==> placed == old(placed) + [(name, own[d][name])]
      ensures !linked ==> net == old(net) && placed == old(placed)
      ensures quiet ==> taken == (name in old(parent)) && linked == (!taken && kindOf(own[d][name]) != Directory)
      ensures quiet ==> parent == if linked then old(parent)[name := own[d][name]] else old(parent)
    {
      Interfere();
      var fails := Fails();
      taken := name in parent;
      var i := own[d][name];
      linked := !fails && !taken && kindOf(i) != Directory;
      if linked {
        Bind(name, i);
        net := net[i := Get(net, i) + 1];
        placed := placed + [(name, i)];
      }
    }

    /** rename of a captured entry back to the parent that refuses to overwrite */
    method MoveBack(d: Inode, name: Name) returns (moved: bool)
      requires Valid() && d in own && name in own[d]
      modifies this`parent, this`own, this`placed, this`replaced
      ensures Valid() && replaced == old(replaced)
      ensures SameOn(old(parent), parent, guarded - {name})
      ensures moved ==>
                own == old(own)[d := old(own)[d] - {name}] && placed == old(placed) + [(name, old(own)[d][name])]
      ensures !moved ==> own == old(own) && placed == old(placed)
      ensures quiet ==> moved == (name !in old(parent))
      ensures quiet ==> parent == if moved then old(parent)[name := old(own)[d][name]] else old(parent)
    {
      Interfere();
      var fails := Fails();
      moved := !fails && name !in parent;
      if moved {
        var i := own[d][name];
        Bind(name, i);
        own := own[d := own[d] - {name}];
        placed := placed + [(name, i)];
      }
    }

    /** unlinkat on an entry of a private directory */
    method UnlinkOwn(d: Inode, name: Name) returns (done: bool)
      requires Valid() && d in own && name in own[d]
      modifies this`parent, this`own, this`net
      ensures Valid()
      ensures SameOn(old(parent), parent, guarded)
      ensures done ==> own == old(own)[d := old(own)[d] - {name}] &&
                       net == old(net)[old(own)[d][name] := Get(old(net), old(own)[d][name]) - 1]
      ensures !done ==> own == old(own) && net == old(net)
      ensures quiet ==> parent == old(parent) && (kindOf(old(own)[d][name]) != Directory ==> done)
    {
      Interfere();
      var fails := Fails();
      done := !fails && kindOf(own[d][name]) != Directory;
      if done {
        var i := own[d][name];
        own := own[d := own[d] - {name}];
        net := net[i := Get(net, i) - 1];
      }
    }

    /** unlinkat on a name of the parent */
    method UnlinkAt(name: Name) returns (removed: Option<Inode>)
      requires Valid()
      modifies this`parent, this`net
      ensures SameOn(old(parent), parent, guarded - {name})
      ensures removed.Some? ==> net == old(net)[removed.value := Get(old(net), removed.value) - 1]
      ensures removed.None? ==> net == old(net)
      ensures quiet ==>
                && removed == (if name in old(parent) && kindOf(old(parent)[name]) != Directory
                               then Some(old(parent)[name]) else None)
                && parent == if removed.Some? then old(parent) - {name} else old(parent)
    {
      Interfere();
      var fails := Fails();
      if fails || name !in parent || kindOf(parent[name]) == Directory {
        return None;
      }
      removed := Some(parent[name]);
      net := net[removed.value := Get(net, removed.value) - 1];
      parent := parent - {name};
    }

    /** unlinkat with AT_REMOVEDIR on a name of the parent: only an empty directory goes */
    method RemoveDir(name: Name)
      requires Valid()
      modifies this`parent, this`own, this`removedDirs
      ensures Valid()
      ensures own == old(own) ||
              exists d :: d in old(own) && old(own)[d] == map[] && own == old(own) - {d} && d in removedDirs
      ensures removedDirs == old(removedDirs) ||
              (|removedDirs| == |old(removedDirs)| + 1 && removedDirs[..|old(removedDirs)|] == old(removedDirs))
      ensures name in guarded && removedDirs != old(removedDirs) ==>
                name in old(parent) && removedDirs == old(removedDirs) + [old(parent)[name]]
      ensures quiet && name in old(parent) && old(parent)[name] in old(own) && old(own)[old(parent)[name]] == map[] ==>
                parent == old(parent) - {name} && own == old(own) - {old(parent)[name]}
    {
      Interfere();
      var fails := Fails();
      if fails || name !in parent || kindOf(parent[name]) != Directory {
        return;
      }
      var d := parent[name];
      if d in own && own[d] != map[] {
        return;
      }
      parent := parent - {name};
      own := own - {d};
      removedDirs := removedDirs + [d];
    }

    /** Whether a no-replace rename works; it makes and removes two directories of its own. */
    method ProbeNoReplace(d: Inode) returns (supported: bool)
      requires Valid() && d in own
      ensures PROBE_SOURCE in own[d] || PROBE_TARGET in own[d] ==> !supported
      ensures quiet && PROBE_SOURCE !in own[d] && PROBE_TARGET !in own[d] ==> supported
    {
      if PROBE_SOURCE in own[d] || PROBE_TARGET in own[d] {
        return false;
      }
      var fails := Fails();
      supported := !fails;
    }
  }

  /** Old private directories are still there, as they were. */
  ghost predicate Extends(before: map<Inode, Entries>, after: map<Inode, Entries>) {
    forall k :: k in before ==> k in after && after[k] == before[k]
  }

  /** `action_unlink_private_unlink_dir`: removes the private directory if its name still leads to it */
  method RemovePrivateDir(fs: FileSystem, name: Name, d: Inode)
    requires fs.Valid()
    modifies fs`parent, fs`own, fs`removedDirs
    ensures fs.Valid()
    ensures forall k :: k in old(fs.own) && old(fs.own)[k] != map[] ==> k in fs.own && fs.own[k] == old(fs.own)[k]
    ensures name in fs.guarded && fs.removedDirs != old(fs.removedDirs) ==> fs.removedDirs == old(fs.removedDirs) + [d]
    ensures fs.quiet && name in old(fs.parent) && old(fs.parent)[name] == d && d in old(fs.own) &&
            old(fs.own)[d] == map[] ==>
              fs.parent == old(fs.parent) - {name} && fs.own == old(fs.own) - {d}
  {
    var found := fs.StatAt(name);
    if found != Some(d) || d !in fs.own {
      return;
    }
    fs.RemoveDir(name);
  }

  /** One of the names that are tried is not in use. */
  ghost predicate FreeName(names: nat -> Name, parent: Entries) {
    exists i :: 0 <= i < MAX_PRIVATE_NAMES && names(i) !in parent
  }

  /**
   `action_create_private_unlink_dir`. The names to try and the numbers of new directories
   come from outside; a result is the name and the directory behind the opened descriptor.
   */
  method CreatePrivateDir(fs: FileSystem, names: nat -> Name, numbers: nat -> Inode)
    returns (r: Option<(Name, Inode)>)
    requires fs.Valid()
    requires forall i :: numbers(i) !in fs.own && fs.kindOf(numbers(i)) == Directory
    modifies fs`parent, fs`own, fs`removedDirs, fs`replaced
    ensures fs.Valid() && fs.replaced == old(fs.replaced)
    ensures r.Some? ==> r.value.1 in fs.own && Extends(old(fs.own), fs.own) && fs.removedDirs == old(fs.removedDirs)
    ensures r.Some? && r.value.1 !in old(fs.own) ==> fs.own[r.value.1] == map[]
    ensures (forall i :: names(i) in fs.guarded) && r.Some? ==>
              r.value.1 !in old(fs.own) && fs.own[r.value.1] == map[] && r.value.0 in fs.guarded
    ensures (forall i :: names(i) in fs.guarded) && fs.removedDirs != old(fs.removedDirs) ==>
              exists i :: fs.removedDirs == old(fs.removedDirs) + [numbers(i)]
    ensures forall k :: k in old(fs.own) && old(fs.own)[k] != map[] ==> k in fs.own && fs.own[k] == old(fs.own)[k]
    ensures fs.quiet ==> (r.Some? <==> FreeName(names, old(fs.parent)))
    ensures fs.quiet && r.None? ==> fs.parent == old(fs.parent) && fs.own == old(fs.own)
    ensures fs.quiet && r.Some? ==>
              var (name, d) := r.value;
              name !in old(fs.parent) && d !in old(fs.own) && fs.parent == old(fs.parent)[name := d] &&
                  fs.own == old(fs.own)[d := map[]]
  {
    var i := 0;
    while i < MAX_PRIVATE_NAMES
      invariant 0 <= i <= MAX_PRIVATE_NAMES
      invariant fs.quiet ==> fs.parent == old(fs.parent) && forall k :: 0 <= k < i ==> names(k) in fs.parent
      invariant fs.Valid() && fs.own == old(fs.own) && fs.removedDirs == old(fs.removedDirs) &&
                fs.replaced == old(fs.replaced)
    {
      var name := names(i);
      var made, taken := fs.MakeDir(name, numbers(i));
      if made {
        r := OpenPrivateDir(fs, name, numbers(i));
        return;
      }
      if !taken {
        return None;
      }
      i := i + 1;
    }
    return None;
  }

  /** The part of `action_create_private_unlink_dir` after the directory was made under its name */
  method OpenPrivateDir(fs: FileSystem, name: Name, ghost made: Inode) returns (r: Option<(Name, Inode)>)
    requires fs.Valid() && made in fs.own && fs.own[made] == map[]
    modifies fs`parent, fs`own, fs`removedDirs
    ensures fs.Valid()
    ensures r.Some? ==> r.value.1 in fs.own && fs.own == old(fs.own) && fs.removedDirs == old(fs.removedDirs)
    ensures r.Some? ==> r.value.0 == name
    ensures name in fs.guarded && name in old(fs.parent) && old(fs.parent)[name] == made ==>
              && (r.Some? ==> r.value.1 == made)
              && (fs.removedDirs != old(fs.removedDirs) ==> fs.removedDirs == old(fs.removedDirs) + [made])
    ensures forall k :: k in old(fs.own) && old(fs.own)[k] != map[] ==> k in fs.own && fs.own[k] == old(fs.own)[k]
    ensures fs.quiet && name in old(fs.parent) && old(fs.parent)[name] in old(fs.own) ==>
              r == Some((name, old(fs.parent)[name])) && fs.parent == old(fs.parent) && fs.own == old(fs.own)
  {
    var created := fs.StatAt(name);
    if created.None? || created.value !in fs.own {
      return None;
    }
    var handle := fs.StatAt(name);
    if handle.None? {
      RemovePrivateDir(fs, name, created.value);
      return None;
    }
    var path := fs.StatAt(name);
    if path != handle || handle != created {
      RemovePrivateDir(fs, name, handle.value);
      return None;
    }
    return Some((name, handle.value));
  }

  /**
   `action_restore_captured_unlink_target`: puts the captured entry back under its name without overwriting. With
   nobody interfering and no call failing that works if and only if the name is free and the entry can be linked
   or moved; otherwise nothing changes.
   */
  method RestoreCaptured(fs: FileSystem, d: Inode, name: Name, noReplace: bool) returns (ok: bool)
    requires fs.Valid() && d in fs.own && name in fs.own[d]
    modifies fs`parent, fs`own, fs`net, fs`placed, fs`replaced
    ensures fs.Valid() && fs.replaced == old(fs.replaced)
    ensures var i := old(fs.own)[d][name];
            && (forall k :: Get(fs.net, k) >= Get(old(fs.net), k))
            && (forall k :: k != i ==> Get(fs.net, k) == Get(old(fs.net), k))
            && (fs.placed == old(fs.placed) || fs.placed == old(fs.placed) + [(name, i)])
            && d in fs.own
            && (fs.placed != old(fs.placed) || fs.own == old(fs.own))
            && (ok ==> fs.placed == old(fs.placed) + [(name, i)] && name !in fs.own[d])
            && (forall k :: k in old(fs.own) && k != d ==> k in fs.own && fs.own[k] == old(fs.own)[k])
    ensures fs.quiet ==>
              var i := old(fs.own)[d][name];
              && (ok <==> name !in old(fs.parent) && (fs.kindOf(i) != Directory || noReplace))
              && fs.parent == (if ok then old(fs.parent)[name := i] else old(fs.parent))
              && fs.own == if ok then old(fs.own)[d := old(fs.own)[d] - {name}] else old(fs.own)
  {
    var linked, taken := fs.LinkBack(d, name);
    if linked {
      ok := fs.UnlinkOwn(d, name);
      return;
    }
    if taken {
      return false;
    }
    if noReplace {
      ok := fs.MoveBack(d, name);
      return;
    }
    return false;
  }

  /** The end of `traverse_unlink`, with something caught in the private directory */
  method DeleteOrRestore(fs: FileSystem, d: Inode, name: Name, scanned: Inode) returns (status: int)
    requires fs.Valid() && d in fs.own && name in fs.own[d]
    modifies fs`parent, fs`own, fs`net, fs`placed, fs`replaced
    ensures fs.Valid() && d in fs.own && fs.replaced == old(fs.replaced)
    ensures status == 0 || status == -1
    ensures forall i :: i != scanned ==> Get(fs.net, i) >= Get(old(fs.net), i)
    ensures forall i :: i != scanned && i != old(fs.own)[d][name] ==> Get(fs.net, i) == Get(old(fs.net), i)
    ensures fs.kindOf(scanned) == Regular ==>
              Get(fs.net, scanned) == Get(old(fs.net), scanned) - if status == 0 then 1 else 0
    ensures status == 0 ==> old(fs.own)[d][name] == scanned && fs.kindOf(scanned) == Regular
    ensures var i := old(fs.own)[d][name];
            || (status == 0 && i == scanned && fs.placed == old(fs.placed))
            || (fs.placed == old(fs.placed) + [(name, i)] && (i == scanned ==> fs.kindOf(scanned) != Regular))
            || (fs.placed == old(fs.placed) && name in fs.own[d] && fs.own[d][name] == i)
    ensures forall k :: k in old(fs.own) && k != d ==> k in fs.own && fs.own[k] == old(fs.own)[k]
    ensures fs.quiet && old(fs.own)[d][name] == scanned && fs.kindOf(scanned) == Regular ==>
              status == 0 && fs.parent == old(fs.parent) && fs.own == old(fs.own)[d := old(fs.own)[d] - {name}]
    ensures fs.quiet && (old(fs.own)[d][name] != scanned || fs.kindOf(scanned) != Regular) ==>
              var free := name !in old(fs.parent);
              && status == -1
              && fs.parent == (if free then old(fs.parent)[name := old(fs.own)[d][name]] else old(fs.parent))
              && fs.own == if free then old(fs.own)[d := old(fs.own)[d] - {name}] else old(fs.own)
  {
    status := -1;
    var statFails := fs.Fails();
    if statFails {
      return;
    }
    var captured := fs.own[d][name];
    if fs.kindOf(captured) != Regular || captured != scanned {
      var restored := RestoreCaptured(fs, d, name, true);
      return;
    }
    var deleted := fs.UnlinkOwn(d, name);
    if deleted {
      status := 0;
    }
  }

  /** The tests of `traverse_unlink` right before the capture */
  method CheckTarget(fs: FileSystem, d: Inode, name: Name, scanned: Inode) returns (ok: bool)
    requires fs.Valid() && d in fs.own
    modifies fs`parent
    ensures FileSystem.SameOn(old(fs.parent), fs.parent, fs.guarded)
    ensures ok ==> name in fs.parent && fs.parent[name] == scanned && fs.kindOf(scanned) == Regular
    ensures fs.quiet ==> fs.parent == old(fs.parent)
    ensures fs.quiet && PROBE_SOURCE !in fs.own[d] && PROBE_TARGET !in fs.own[d] ==>
              (ok <==> name in old(fs.parent) && old(fs.parent)[name] == scanned && fs.kindOf(scanned) == Regular)
  {
    var supported := fs.ProbeNoReplace(d);
    if !supported {
      return false;
    }
    var current := fs.StatAt(name);
    ok := current.Some? && fs.kindOf(current.value) == Regular && current.value == scanned;
  }

  /** The part of `traverse_unlink` up to the capture, which happens only if the name still leads to the scanned file */
  method CaptureChecked(fs: FileSystem, d: Inode, name: Name, scanned: Inode) returns (caught: Option<Inode>)
    requires fs.Valid() && d in fs.own
    modifies fs`parent, fs`own, fs`net, fs`replaced
    ensures fs.Valid() && d in fs.own
    ensures caught.None? ==> fs.own == old(fs.own) && fs.replaced == old(fs.replaced) && fs.net == old(fs.net)
    ensures caught.Some? ==>
              var lost := Lost(old(fs.own)[d], name, caught.value);
              && fs.kindOf(scanned) == Regular && fs.own == old(fs.own)[d := old(fs.own)[d][name := caught.value]]
              && fs.replaced == old(fs.replaced) + lost && fs.net == OneLess(old(fs.net), lost)
    ensures fs.quiet && PROBE_SOURCE !in old(fs.own)[d] && PROBE_TARGET !in old(fs.own)[d] &&
            (name in old(fs.own)[d] ==>
               old(fs.own)[d][name] != scanned && fs.kindOf(old(fs.own)[d][name]) == Regular) ==>
              && caught == (if name in old(fs.parent) && old(fs.parent)[name] == scanned &&
                               fs.kindOf(scanned) == Regular
                            then Some(scanned) else None)
              && fs.parent == if caught.Some? then old(fs.parent) - {name} else old(fs.parent)
  {
    hide FileSystem.SameOn;
    var ok := CheckTarget(fs, d, name, scanned);
    if !ok {
      return None;
    }
    caught := fs.CaptureInto(name, d);
  }

  /**
   The part of `traverse_unlink` that works with an opened private directory. The only name that can be
   lost besides that of the scanned file is one that the directory already held.
   */
  method CaptureAndDelete(fs: FileSystem, d: Inode, name: Name, scanned: Inode)
    returns (status: int, ghost caught: Option<Inode>, ghost lost: seq<Inode>)
    requires fs.Valid() && d in fs.own
    modifies fs`parent, fs`own, fs`net, fs`placed, fs`replaced
    ensures fs.Valid() && d in fs.own
    ensures status == 0 || status == -1
    ensures lost == (if caught.Some? then Lost(old(fs.own)[d], name, caught.value) else []) &&
            fs.replaced == old(fs.replaced) + lost
    ensures forall i :: i != scanned ==> Get(fs.net, i) >= Get(old(fs.net), i) - if i in lost then 1 else 0
    ensures forall i :: i in lost && i != scanned ==> Get(fs.net, i) == Get(old(fs.net), i) - 1
    ensures Get(fs.net, scanned) ==
            Get(old(fs.net), scanned) - (if status == 0 then 1 else 0) - if scanned in lost then 1 else 0
    ensures status == 0 ==> caught == Some(scanned) && fs.kindOf(scanned) == Regular
    ensures caught.None? ==> fs.placed == old(fs.placed)
    ensures caught.Some? ==>
              || (status == 0 && caught.value == scanned)
              || (caught.value != scanned && fs.placed == old(fs.placed) + [(name, caught.value)])
              || (name in fs.own[d] && fs.own[d][name] == caught.value)
    ensures forall k :: k in old(fs.own) && k != d ==> k in fs.own && fs.own[k] == old(fs.own)[k]
    ensures fs.quiet && old(fs.own)[d] == map[] ==>
              && (status == 0 <==>
                    name in old(fs.parent) && old(fs.parent)[name] == scanned && fs.kindOf(scanned) == Regular)
              && fs.parent == (if status == 0 then old(fs.parent) - {name} else old(fs.parent)) && fs.own == old(fs.own)
    ensures fs.quiet && PROBE_SOURCE !in old(fs.own)[d] && PROBE_TARGET !in old(fs.own)[d] &&
            name in old(fs.parent) && old(fs.parent)[name] == scanned && fs.kindOf(scanned) == Regular &&
            name in old(fs.own)[d] && old(fs.own)[d][name] != scanned && fs.kindOf(old(fs.own)[d][name]) == Regular ==>
              status == 0 && lost == [old(fs.own)[d][name]]
  {
    hide FileSystem.SameOn, FileSystem.Fits;
    status, caught, lost := -1, None, [];
    var moved := CaptureChecked(fs, d, name, scanned);
    caught := moved;
    if moved.None? {
      return;
    }
    lost := Lost(old(fs.own)[d], name, moved.value);
    status := DeleteOrRestore(fs, d, name, scanned);
  }

  /** A directory that was made and removed leaves no trace. */
  lemma AddedAndRemoved(parent: Entries, own: map<Inode, Entries>, name: Name, p: Name, d: Inode)
    requires p !in parent && d !in own
    ensures p != name ==> parent[p := d] - {name} - {p} == parent - {name}
    ensures parent[p := d] - {p} == parent && own[d := map[]] - {d} == own
  {
  }

  /** `traverse_unlink` with the scanned file given */
  method UnlinkScanned(fs: FileSystem, name: Name, scanned: Inode, names: nat -> Name, numbers: nat -> Inode)
    returns (status: int, ghost caught: Option<Inode>, ghost d: Option<Inode>, ghost lost: seq<Inode>)
    requires fs.Valid()
    requires forall i :: numbers(i) !in fs.own && fs.kindOf(numbers(i)) == Directory
    modifies fs
    ensures fs.Valid()
    ensures status == 0 || status == -1
    ensures forall i :: i != scanned ==> Get(fs.net, i) >= Get(old(fs.net), i) - if i in lost then 1 else 0
    ensures Get(fs.net, scanned) ==
            Get(old(fs.net), scanned) - (if status == 0 then 1 else 0) - if scanned in lost then 1 else 0
    ensures fs.replaced == old(fs.replaced) + lost
    ensures lost == if caught.Some? && d.Some? && d.value in old(fs.own)
                    then Lost(old(fs.own)[d.value], name, caught.value) else []
    ensures forall i :: i in lost && scanned != i ==> Get(fs.net, i) == Get(old(fs.net), i) - 1
    ensures status == 0 ==> caught == Some(scanned) && fs.kindOf(scanned) == Regular
    ensures caught.Some? ==>
              || (status == 0 && caught.value == scanned)
              || (caught.value != scanned && fs.placed == old(fs.placed) + [(name, caught.value)])
              || (d.Some? && d.value in fs.own && name in fs.own[d.value] && fs.own[d.value][name] == caught.value)
    ensures caught.None? ==> fs.placed == old(fs.placed) && lost == []
    ensures (forall i :: names(i) in fs.guarded) ==>
              (d.Some? ==> d.value !in old(fs.own)) &&
              (fs.removedDirs != old(fs.removedDirs) ==>
                 |fs.removedDirs| == |old(fs.removedDirs)| + 1 && fs.removedDirs[|old(fs.removedDirs)|] !in old(fs.own))
    ensures forall k :: k in old(fs.own) && old(fs.own)[k] != map[] && d != Some(k) ==>
              k in fs.own && fs.own[k] == old(fs.own)[k]
    ensures fs.quiet ==>
              && (status == 0 <==> name in old(fs.parent) && old(fs.parent)[name] == scanned &&
                                   fs.kindOf(scanned) == Regular && FreeName(names, old(fs.parent)))
              && fs.parent == (if status == 0 then old(fs.parent) - {name} else old(fs.parent)) && fs.own == old(fs.own)
  {
    hide Get, FreeName, FileSystem.SameOn, Lost;
    status, caught, d, lost := -1, None, None, [];
    var private := CreatePrivateDir(fs, names, numbers);
    if private.None? {
      return;
    }
    var (privateName, privateDir) := private.value;
    d := Some(privateDir);
    if fs.quiet {
      AddedAndRemoved(old(fs.parent), old(fs.own), name, privateName, privateDir);
    }
    NothingInEmpty(name);
    status, caught, lost := CaptureAndDelete(fs, privateDir, name, scanned);
    RemovePrivateDir(fs, privateName, privateDir);
  }

  lemma NothingInEmpty(name: Name)
    ensures forall i :: Lost(map[], name, i) == []
  {
  }

  /**
   `traverse_unlink` on POSIX, from the opened parent directory on.

   With a scanned file given, a name of it is lost exactly when the call succeeds, whatever others do to the
   parent meanwhile, and what else was caught was put back under a free name or is still in the private
   directory. One other object can lose a name: if the directory that was opened existed before and held an
   entry of that name, the capture overwrites it, and that is the only way. When others leave the private
   names alone it cannot happen, nothing is replaced, and no directory is removed but the one made here.
   */
  method TraverseUnlink(fs: FileSystem, name: Name, scanned: Option<Inode>, names: nat -> Name, numbers: nat -> Inode)
    returns (status: int, ghost caught: Option<Inode>, ghost d: Option<Inode>, ghost lost: seq<Inode>)
    requires fs.Valid()
    requires forall i :: numbers(i) !in fs.own && fs.kindOf(numbers(i)) == Directory
    modifies fs
    ensures fs.Valid()
    ensures status == 0 || status == -1
    ensures scanned.Some? ==>
              && (forall i :: i != scanned.value ==> Get(fs.net, i) >= Get(old(fs.net), i) - if i in lost then 1 else 0)
              && Get(fs.net, scanned.value) ==
                 Get(old(fs.net), scanned.value) - (if status == 0 then 1 else 0) -
                   if scanned.value in lost then 1 else 0
    ensures fs.replaced == old(fs.replaced) + lost
    ensures lost == if caught.Some? && d.Some? && d.value in old(fs.own)
                    then Lost(old(fs.own)[d.value], name, caught.value) else []
    ensures (forall k :: k in old(fs.own) ==> name !in old(fs.own)[k]) ==> lost == []
    ensures forall i :: i in lost && scanned != Some(i) ==> Get(fs.net, i) == Get(old(fs.net), i) - 1
    ensures scanned.Some? && status == 0 ==> caught == scanned && fs.kindOf(scanned.value) == Regular
    ensures caught.Some? ==>
              scanned.Some? &&
              (|| (status == 0 && caught == scanned)
               || (caught != scanned && fs.placed == old(fs.placed) + [(name, caught.value)])
               || (d.Some? && d.value in fs.own && name in fs.own[d.value] && fs.own[d.value][name] == caught.value))
    ensures caught.None? ==> fs.placed == old(fs.placed) && fs.replaced == old(fs.replaced)
    ensures scanned.Some? && (forall i :: names(i) in fs.guarded) ==>
              lost == [] &&
              (d.Some? ==> d.value !in old(fs.own)) &&
              (fs.removedDirs != old(fs.removedDirs) ==>
                 |fs.removedDirs| == |old(fs.removedDirs)| + 1 && fs.removedDirs[|old(fs.removedDirs)|] !in old(fs.own))
    ensures forall k :: k in old(fs.own) && old(fs.own)[k] != map[] && d != Some(k) ==>
              k in fs.own && fs.own[k] == old(fs.own)[k]
    ensures fs.quiet && scanned.Some? ==>
              && (status == 0 <==> name in old(fs.parent) && old(fs.parent)[name] == scanned.value &&
                                   fs.kindOf(scanned.value) == Regular && FreeName(names, old(fs.parent)))
              && fs.parent == (if status == 0 then old(fs.parent) - {name} else old(fs.parent)) && fs.own == old(fs.own)
    ensures fs.quiet && scanned.None? ==>
              && (status == 0 <==> name in old(fs.parent) && fs.kindOf(old(fs.parent)[name]) != Directory)
              && fs.parent == (if status == 0 then old(fs.parent) - {name} else old(fs.parent)) && fs.own == old(fs.own)
  {
    hide Get, FreeName, Lost;
    if scanned.None? {
      status, caught, d, lost := -1, None, None, [];
      var removed := fs.UnlinkAt(name);
      if removed.Some? {
        status := 0;
      }
      return;
    }
    status, caught, d, lost := UnlinkScanned(fs, name, scanned.value, names, numbers);
    if caught.Some? && d.Some? && d.value in old(fs.own) {
      NothingLost(old(fs.own)[d.value], name, caught.value);
    }
  }

  /** An earlier call left `victim` in its private directory, which it could neither put back nor remove. */
  method LeftBehind(kindOf: Inode -> Kind, file: Name, dirName: Name, victim: Inode, d: Inode) returns (fs: FileSystem)
    requires file != dirName && kindOf(victim) == Regular && kindOf(d) == Directory
    ensures fresh(fs) && fs.Valid() && fs.quiet && fs.guarded == {} && fs.kindOf == kindOf
    ensures fs.parent == map[dirName := d] && fs.own == map[d := map[file := victim]]
    ensures fs.net == map[] && fs.replaced == []
  {
    fs := new FileSystem(kindOf, {}, true, map[file := victim]);
    var made, taken := fs.MakeDir(dirName, d);
    var held := fs.CaptureInto(file, d);
    assert map[file := victim][dirName := d] - {file} == map[dirName := d];
  }

  /** A new scanned file, a new private directory, and the old one moved to its name. */
  method SwapIn(fs: FileSystem, file: Name, before: Name, now: Name, scanned: Inode, oldDir: Inode, newDir: Inode)
    requires fs.Valid() && fs.quiet && fs.guarded == {} && fs.kindOf(newDir) == Directory && newDir !in fs.own
    requires file != before && before != now && now != file && fs.parent == map[before := oldDir]
    modifies fs`parent, fs`own, fs`replaced
    ensures fs.Valid() && fs.replaced == old(fs.replaced)
    ensures fs.parent == map[file := scanned, now := oldDir] && fs.own == old(fs.own)[newDir := map[]]
  {
    hide FileSystem.SameOn;
    fs.OthersBind(file, scanned);
    var made, taken := fs.MakeDir(now, newDir);
    fs.OthersMove(before, now);
  }

  /**
   A run in which another object loses its name. While a call has made its own directory and not yet opened
   it, someone moves the directory of an earlier call to the new name; it passes every test.
   */
  method OverwritingRun(kindOf: Inode -> Kind, file: Name, before: Name, now: Name,
                        victim: Inode, scanned: Inode, oldDir: Inode, newDir: Inode)
    returns (fs: FileSystem, status: int)
    requires file != before && before != now && now != file && file != PROBE_SOURCE && file != PROBE_TARGET
    requires victim != scanned && oldDir != newDir && kindOf(victim) == kindOf(scanned) == Regular
    requires kindOf(oldDir) == kindOf(newDir) == Directory
    ensures status == 0 && fs.replaced == [victim] && Get(fs.net, victim) == -1
  {
    hide FileSystem.SameOn;
    fs := LeftBehind(kindOf, file, before, victim, oldDir);
    SwapIn(fs, file, before, now, scanned, oldDir, newDir);
    var private := OpenPrivateDir(fs, now, newDir);
    assert private == Some((now, oldDir));
    ghost var caught, lost;
    status, caught, lost := CaptureAndDelete(fs, private.value.1, file, scanned);
    assert lost == [victim];
  }

  /** A scanned file and a private directory just made for it */
  method Prepared(kindOf: Inode -> Kind, file: Name, private: Name, scanned: Inode, d: Inode) returns (fs: FileSystem)
    requires file != private && kindOf(d) == Directory
    ensures fresh(fs) && fs.Valid() && fs.quiet && fs.guarded == {} && fs.kindOf == kindOf
    ensures fs.parent == map[file := scanned, private := d] && fs.own == map[d := map[]]
  {
    fs := new FileSystem(kindOf, {}, true, map[file := scanned]);
    var made, taken := fs.MakeDir(private, d);
  }

  /** The tests succeed, then somebody replaces the file, and the capture takes the replacement. */
  method CatchesOther(kindOf: Inode -> Kind, file: Name, private: Name, scanned: Inode, other: Inode, d: Inode)
    returns (fs: FileSystem)
    requires file != private && scanned != other && other != d && kindOf(scanned) == Regular && kindOf(d) == Directory
    ensures fresh(fs) && fs.Valid() && fs.quiet && fs.kindOf == kindOf
    ensures fs.parent == map[private := d] && fs.own == map[d := map[file := other]]
  {
    hide FileSystem.SameOn, Get, OneLess, Lost;
    fs := Prepared(kindOf, file, private, scanned, d);
    var ok := CheckTarget(fs, d, file, scanned);
    assert ok;
    fs.OthersBind(file, other);
    assert fs.parent == map[file := other, private := d];
    var caught := fs.CaptureInto(file, d);
    assert caught == Some(other);
    assert map[file := other, private := d] - {file} == map[private := d];
  }

  /**
   A run in which the file is replaced between the test and the capture: the replacement is caught, does not
   match, and ends up back under its name, with the private directory gone.
   */
  method RestoringRun(kindOf: Inode -> Kind, file: Name, private: Name, scanned: Inode, other: Inode, d: Inode)
    returns (fs: FileSystem, status: int)
    requires file != private && scanned != other && other != d && kindOf(scanned) == Regular && kindOf(d) == Directory
    ensures status == -1 && fs.parent == map[file := other] && fs.own == map[]
  {
    hide FileSystem.SameOn, Get;
    fs := CatchesOther(kindOf, file, private, scanned, other, d);
    status := DeleteOrRestore(fs, d, file, scanned);
    assert map[file := other] - {file} == map[];
    assert fs.own == map[d := map[]] && fs.parent == map[private := d, file := other];
    RemovePrivateDir(fs, private, d);
    assert map[private := d, file := other] - {private} == map[file := other];
  }
}
