/** The registry of instances (`IocList`, launcher.h): an ordered list of
    `Ioc` objects filled by the discovery walk below the top path. */
module Registry {
  import opened CString
  import opened Config
  import opened Discovery
  import opened Process

  /** The descriptor an instance was created from. */
  function DescriptorOf(ioc: Ioc): Descriptor
  {
    Descriptor(ioc.stagePath, ioc.instanceName, ioc.deviceName, ioc.prefix)
  }

  function DescriptorsOf(l: seq<Ioc>): seq<Descriptor>
  {
    if l == [] then [] else DescriptorsOf(l[..|l| - 1]) + [DescriptorOf(l[|l| - 1])]
  }

  lemma DescriptorsSnoc(l: seq<Ioc>, ioc: Ioc)
    ensures DescriptorsOf(l + [ioc]) == DescriptorsOf(l) + [DescriptorOf(ioc)]
  {
    assert (l + [ioc])[..|l|] == l;
  }

  /** Appending the results of one more entry of the readdir loop. */
  lemma WalkStep(cs: seq<Entry>, i: nat, path: seq<char>, level: nat,
                 before: seq<Descriptor>, mid: seq<Descriptor>, after: seq<Descriptor>)
    requires i < |cs| && level <= 3
    requires mid == before + DiscoverIn(cs[..i], path, level)
    requires after == mid + Visit(cs[i], path, level)
    ensures after == before + DiscoverIn(cs[..i + 1], path, level)
  {
    assert cs[..i + 1][..i] == cs[..i];
  }

  lemma Grow(l0: seq<Ioc>, l1: seq<Ioc>, l2: seq<Ioc>)
    requires l0 <= l1 && l1 <= l2
    ensures l0 <= l2
    ensures forall k :: 0 <= k < |l1| ==> l2[k] == l1[k]
  {
  }

  /** The `fgets` loop of `parseInstanceFile`: each line is cut at its
      first NUL, classified by key, and a key line's value replaces the
      earlier one. */
  method ReadSettings(lines: seq<seq<char>>) returns (f: Settings)
    ensures f == Collect(lines)
  {
    f := Settings(None, None, None);
    var i := 0;
    while i < |lines|
      invariant i <= |lines|
      invariant f == Collect(lines[..i])
    {
      assert lines[..i + 1][..i] == lines[..i];
      var line := CStr(lines[i]);
      var key := Classify(line);
      if key == Location {
        var v := ParseInstanceLine(line);
        f := f.(location := Some(v));
      } else if key == DeviceName {
        var v := ParseInstanceLine(line);
        f := f.(device := Some(v));
      } else if key == CameraName {
        var v := ParseInstanceLine(line);
        f := f.(camera := Some(v));
      }
      i := i + 1;
    }
    assert lines[..i] == lines;
  }

  class IocList {
    var list: seq<Ioc>
    var topPath: seq<char>

    constructor ()
      ensures list == [] && topPath == []
    {
      list := [];
      topPath := [];
    }

    method AddIoc(ioc: Ioc)
      modifies this
      ensures list == old(list) + [ioc] && topPath == old(topPath)
    {
      list := list + [ioc];
    }

    method Count() returns (n: nat)
      ensures n == |list|
    {
      n := |list|;
    }

    /** `ioc(n)`: the `n`-th instance, or NULL past the end. */
    method IocAt(n: nat) returns (r: Ioc?)
      ensures n < |list| ==> r == list[n]
      ensures n >= |list| ==> r == null
    {
      if n < |list| {
        r := list[n];
      } else {
        r := null;
      }
    }

    /** `clear()`: forgets every instance without stopping it. */
    method Clear()
      modifies this
      ensures list == [] && topPath == old(topPath)
      ensures forall x :: x in old(list) ==> x.started == old(x.started) && x.pid == old(x.pid)
    {
      list := [];
    }

    /** `parseInstanceFile`: `text` is what reading `dirPath/instance.cmd…`
        gives. One instance is added exactly when all three settings are
        found. */
    method ParseInstanceFile(dirPath: seq<char>, text: FileText) returns (ok: bool)
      modifies this
      ensures ok == Describe(dirPath, text).Some?
      ensures ok ==> DescriptorsOf(list) == DescriptorsOf(old(list)) + [Describe(dirPath, text).value]
      ensures !ok ==> list == old(list)
      ensures ok ==> old(list) <= list && |list| == |old(list)| + 1
      ensures forall k :: |old(list)| <= k < |list| ==> fresh(list[k]) && list[k].Valid() && !list[k].started
      ensures topPath == old(topPath)
    {
      if !text.Text? {
        return false;
      }
      var f := ReadSettings(text.lines);
      if f.location.None? || f.device.None? || f.camera.None? {
        return false;
      }
      var prefix := f.location.value + ":" + f.device.value + ":";
      var ioc := new Ioc(StagePath(dirPath), Basename(dirPath), f.camera.value, prefix);
      DescriptorsSnoc(list, ioc);
      AddIoc(ioc);
      ok := true;
    }

    /** `listDir(path, level)`, `e` being what `opendir(path)` finds. */
    method ListDir(e: Entry, path: seq<char>, level: nat)
      requires level <= 3
      modifies this
      ensures DescriptorsOf(list) == DescriptorsOf(old(list)) + Discover(e, path, level)
      ensures old(list) <= list
      ensures forall k :: |old(list)| <= k < |list| ==> fresh(list[k]) && list[k].Valid() && !list[k].started
      ensures topPath == old(topPath)
      decreases e, 1
    {
      if !e.Dir? {
        return;
      }
      var children := e.children;
      ghost var before := DescriptorsOf(list);
      ghost var n0 := |list|;
      var i := 0;
      while i < |children|
        invariant i <= |children|
        invariant DescriptorsOf(list) == before + DiscoverIn(children[..i], path, level)
        invariant old(list) <= list && n0 == |old(list)|
        invariant forall k :: n0 <= k < |list| ==> fresh(list[k]) && list[k].Valid() && !list[k].started
        invariant topPath == old(topPath)
      {
        ghost var mid := DescriptorsOf(list);
        ghost var l1 := list;
        VisitEntry(children[i], path, level);
        Grow(old(list), l1, list);
        WalkStep(children, i, path, level, before, mid, DescriptorsOf(list));
        i := i + 1;
      }
      assert children[..i] == children;
    }

    /** One pass of the `readdir` loop in `listDir`. */
    method VisitEntry(c: Entry, path: seq<char>, level: nat)
      requires level <= 3
      modifies this
      ensures DescriptorsOf(list) == DescriptorsOf(old(list)) + Visit(c, path, level)
      ensures old(list) <= list
      ensures forall k :: |old(list)| <= k < |list| ==> fresh(list[k]) && list[k].Valid() && !list[k].started
      ensures topPath == old(topPath)
      decreases c, 2
    {
      if c.File? {
        if level == 3 && PrefixMatches(c.name, InstanceFilePrefix, 12) {
          var _ := ParseInstanceFile(path, c.text);
        }
      } else if !IsDot(c.name) && Recurses(c.name, level) {
        ListDir(c, Join(path, c.name), level + 1);
      }
    }

    /** `populate()`: nothing without a top path; otherwise walk it and
        report how many instances the list now holds. */
    method Populate(root: Entry) returns (n: nat)
      modifies this
      ensures topPath == old(topPath)
      ensures topPath == [] ==> n == 0 && list == old(list)
      ensures topPath != [] ==>
                DescriptorsOf(list) == DescriptorsOf(old(list)) + Discover(root, topPath, 0) && n == |list|
      ensures old(list) <= list
      ensures forall k :: |old(list)| <= k < |list| ==> fresh(list[k]) && list[k].Valid() && !list[k].started
    {
      if |topPath| == 0 {
        return 0;
      }
      ListDir(root, topPath, 0);
      n := |list|;
    }
  }
}
