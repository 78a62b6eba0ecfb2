/**
  The access policies as they are written: three ways of opening that fall back on the bare scull device,
  and the list of private devices.  `wuid` and `uid` share one class; they differ in what refusal means.
 */
module Access {
  import opened Kernel
  import opened OwnerOpen
  import opened Scull
  import opened SparseFile

  /** The device that one open file at a time may use. */
  class SingleOpenDevice {
    const dev: Device
    var available: int

    ghost predicate Valid()
      reads this
    {
      available == 0 || available == 1
    }

    constructor (dev: Device)
      ensures Valid() && available == 1 && this.dev == dev
    {
      this.dev, available := dev, 1;
    }

    /** An open that is refused leaves everything alone; in particular it does not empty the device. */
    method Open(writeOnly: bool, params: Params) returns (r: Result<()>)
      requires Valid() && dev.Valid()
      modifies this, dev
      ensures Valid() && dev.Valid()
      ensures r == if old(available) == 1 then Ok(()) else Err(EBUSY)
      ensures available == 0
      ensures if r.Ok? && writeOnly then dev.Contents() == Empty else unchanged(dev)
    {
      available := available - 1;
      if available != 0 {
        available := available + 1;
        return Err(EBUSY);
      }
      if writeOnly {
        dev.Trim(params);
      }
      r := Ok(());
    }

    method Release()
      requires Valid() && available == 0
      modifies `available
      ensures Valid() && available == 1
    {
      available := available + 1;
    }
  }

  /** Who has the device open, and who owns it. */
  datatype Crowd = Crowd(owner: nat, holders: seq<User>)
  {
    predicate Admits(u: User) {
      holders == [] || Matches(owner, u)
    }

    /** The first user becomes the owner. */
    function Joined(u: User): Crowd {
      Crowd(if holders == [] then u.uid else owner, holders + [u])
    }

    /** Somebody else opens the device, if he may, or closes it. */
    function After(a: Act): Crowd {
      match a
      case Enters(u, _) => if Admits(u) then Joined(u) else this
      case Leaves(i) => if i < |holders| then this.(holders := holders[..i] + holders[i + 1..]) else this
    }

    function AfterAll(acts: seq<Act>): Crowd {
      if acts == [] then this else AfterAll(acts[..|acts| - 1]).After(acts[|acts| - 1])
    }

    /** After so many stretches of what others do. */
    function AfterWaits(others: seq<seq<Act>>, n: nat): Crowd
      requires n <= |others|
    {
      if n == 0 then this else AfterWaits(others, n - 1).AfterAll(others[n - 1])
    }
  }

  /** What others do follows the same rule: whoever is the owner, has his identity or the capability gets in, and nobody else while it is held. */
  lemma OthersFollowTheRule(c: Crowd, u: User, writeOnly: bool, i: nat)
    ensures c.After(Enters(u, writeOnly)) ==
      if c.holders == [] then Crowd(u.uid, [u])
      else if u.capable || u.uid == c.owner || u.euid == c.owner then Crowd(c.owner, c.holders + [u])
      else c
    ensures i < |c.holders| ==> c.After(Leaves(i)) == Crowd(c.owner, c.holders[..i] + c.holders[i + 1..])
    ensures c.AfterAll([]) == c && c.AfterAll([Leaves(i)]) == c.After(Leaves(i))
  {
    assert [Leaves(i)][..0] == [];
  }

  /** What others do. */
  datatype Act = Enters(u: User, writeOnly: bool) | Leaves(i: nat)

  /** The device that any number of open files of one user may use. */
  class OwnedDevice {
    const dev: Device
    var count: int
    var owner: nat
    ghost var holders: seq<User>

    /** Everybody who has it open is its owner, has taken his identity, or may override access rights. */
    ghost predicate Valid()
      reads this
    {
      && count == |holders|
      && forall u :: u in holders ==> owner == u.uid || owner == u.euid || u.capable
    }

    ghost function Now(): Crowd
      reads this
    {
      Crowd(owner, holders)
    }

    constructor (dev: Device)
      ensures Valid() && holders == [] && this.dev == dev
    {
      this.dev, count, owner, holders := dev, 0, 0, [];
    }

    predicate Available(u: User)
      reads this
    {
      count == 0 || Matches(owner, u)
    }

    /** The last part of every open: the first user becomes the owner. */
    method Enter(u: User, writeOnly: bool, params: Params)
      requires Valid() && dev.Valid() && Available(u)
      modifies this, dev
      ensures Valid() && dev.Valid() && Now() == old(Now()).Joined(u)
      ensures if writeOnly then dev.Contents() == Empty else unchanged(dev)
    {
      if count == 0 {
        owner := u.uid;
      }
      count := count + 1;
      holders := holders + [u];
      if writeOnly {
        dev.Trim(params);
      }
    }

    /** The uid device refuses other users: an open fails exactly if somebody it does not match has it open. */
    method Open(u: User, writeOnly: bool, params: Params) returns (r: Result<()>)
      requires Valid() && dev.Valid()
      modifies this, dev
      ensures Valid() && dev.Valid()
      ensures r == if old(holders) != [] && old(owner) != u.uid && old(owner) != u.euid && !u.capable then Err(EBUSY) else Ok(())
      ensures r.Err? ==> unchanged(this) && unchanged(dev)
      ensures r.Ok? ==> Now() == old(Now()).Joined(u)
      ensures r.Ok? ==> holders == old(holders) + [u] && owner == if old(holders) == [] then u.uid else old(owner)
      ensures r.Ok? ==> if writeOnly then dev.Contents() == Empty else unchanged(dev)
    {
      if count != 0 && owner != u.uid && owner != u.euid && !u.capable {
        return Err(EBUSY);
      }
      Enter(u, writeOnly, params);
      r := Ok(());
    }

    /** Closing one of the openings. */
    method Release(ghost i: nat) returns (wake: bool)
      requires Valid() && i < |holders|
      modifies `count, `holders
      ensures Valid() && Now() == old(Now()).After(Leaves(i))
      ensures holders == old(holders[..i] + holders[i + 1..]) && owner == old(owner)
      ensures wake <==> holders == []
    {
      count := count - 1;
      holders := holders[..i] + holders[i + 1..];
      wake := count == 0;
    }

    /** What others do while somebody waits: opens that are refused or have to wait themselves change nothing. */
    method Others(acts: seq<Act>, params: Params)
      requires Valid() && dev.Valid()
      modifies this, dev
      ensures Valid() && dev.Valid() && Now() == old(Now()).AfterAll(acts)
    {
      for k := 0 to |acts|
        invariant Valid() && dev.Valid() && Now() == old(Now()).AfterAll(acts[..k])
      {
        assert acts[..k + 1][..k] == acts[..k];
        match acts[k] {
          case Enters(u, writeOnly) =>
            var _ := Open(u, writeOnly, params);
          case Leaves(i) =>
            if i < count {
              var _ := Release(i);
            }
        }
      }
      assert acts[..|acts|] == acts;
    }

    /**
      The wuid device makes other users wait.  `others` says what happens each time one waits; after that a
      signal ends the wait.  The open succeeds the first time the device admits the user, who then has it
      open together with whoever else may.
     */
    method OpenWaiting(u: User, nonblock: bool, others: seq<seq<Act>>, writeOnly: bool, params: Params) returns (r: Result<()>, waits: nat)
      requires Valid() && dev.Valid()
      modifies this, dev
      ensures Valid() && dev.Valid()
      ensures waits <= |others| && forall k :: 0 <= k < waits ==> !nonblock && !old(Now()).AfterWaits(others, k).Admits(u)
      ensures old(holders) == [] || u.capable || old(owner) == u.uid || old(owner) == u.euid ==> r == Ok(()) && waits == 0
      ensures r.Err? ==> holders != [] && owner != u.uid && owner != u.euid && !u.capable
      ensures var now := old(Now()).AfterWaits(others, waits);
        if now.Admits(u) then r == Ok(()) && Now() == now.Joined(u)
        else Now() == now && if nonblock then r == Err(EAGAIN) && waits == 0 else r == Err(ERESTARTSYS) && waits == |others|
      ensures r.Ok? ==> holders != [] && u == holders[|holders| - 1] && (owner == u.uid || owner == u.euid || u.capable) && (writeOnly ==> dev.Contents() == Empty)
      ensures waits == 0 && !(r.Ok? && writeOnly) ==> unchanged(dev)
    {
      waits := 0;
      while !Available(u)
        invariant Valid() && dev.Valid() && waits <= |others| && Now() == old(Now()).AfterWaits(others, waits)
        invariant forall k :: 0 <= k < waits ==> !nonblock && !old(Now()).AfterWaits(others, k).Admits(u)
        invariant waits == 0 ==> unchanged(dev)
        decreases |others| - waits
      {
        if nonblock {
          return Err(EAGAIN), waits;
        }
        if waits == |others| {
          return Err(ERESTARTSYS), waits;
        }
        Others(others[waits], params);
        waits := waits + 1;
      }
      Enter(u, writeOnly, params);
      r := Ok(());
    }
  }

  // ----- private devices

  datatype ListItem = ListItem(key: int, device: Device)

  /** One device for each controlling terminal that has opened one. */
  class PrivateDevices {
    var list: seq<ListItem>

    /** One device for each key, and no two of them share anything. */
    ghost predicate Valid()
      reads this, Repr()
    {
      && (forall i :: 0 <= i < |list| ==> list[i].device.Valid())
      && (forall i, j :: 0 <= i < j < |list| ==> list[i].key != list[j].key && list[i].device != list[j].device)
      && (forall i, j :: 0 <= i < j < |list| ==> list[i].device.owner.Keys !! list[j].device.owner.Keys)
    }

    ghost function Devices(): set<Device>
      reads this
    {
      set i | 0 <= i < |list| :: list[i].device
    }

    ghost function Repr(): set<object>
      reads this, Devices()
    {
      (set d | d in Devices() :: d as object) + (set d, b | d in Devices() && b in d.owner.Keys :: b as object)
    }

    constructor ()
      ensures Valid() && list == []
    {
      list := [];
    }

    ghost predicate Has(key: int)
      reads this
    {
      exists i :: 0 <= i < |list| && list[i].key == key
    }

    /** Makes an empty device and puts it in front of the list. */
    method Add(key: int, params: Params) returns (device: Device)
      requires Valid() && !Has(key)
      modifies `list
      ensures Valid() && list == [ListItem(key, device)] + old(list)
      ensures fresh(device) && device.Valid() && device.Contents() == Empty && device.live == {}
      ensures device.quantum == params.quantum && device.qset == params.qset
    {
      hide Device.Valid, Device.Contents;
      device := new Device(params);
      list := [ListItem(key, device)] + list;
    }

    /** The device of `key`: always the same one, and made when there is none and memory for it is granted. */
    method LookFor(key: int, params: Params, granted: bool) returns (dev: Option<Device>)
      requires Valid()
      modifies `list
      ensures Valid()
      ensures dev.None? <==> !granted && !old(Has(key))
      ensures dev.Some? ==> ListItem(key, dev.value) in list
      ensures dev.Some? && !old(Has(key)) ==>
                && list == [ListItem(key, dev.value)] + old(list)
                && fresh(dev.value) && dev.value.Valid() && dev.value.Contents() == Empty && dev.value.live == {}
      ensures old(Has(key)) || dev.None? ==> list == old(list)
    {
      hide Device.Valid, Device.Contents;
      for i := 0 to |list|
        invariant list == old(list) && forall k :: 0 <= k < i ==> list[k].key != key
      {
        if list[i].key == key {
          return Some(list[i].device);
        }
      }
      if !granted {
        return None;
      }
      var device := Add(key, params);
      dev := Some(device);
    }

    /** What one user writes to his device no other user's device shows, and all of them stay sound. */
    method WriteTo(i: nat, pos: nat, buf: seq<byte>, copy: UserCopy, budget: nat) returns (r: Result<nat>)
      requires Valid() && i < |list|
      requires 0 < list[i].device.quantum && 0 < list[i].device.qset
      modifies list[i].device, list[i].device.owner.Keys
      ensures Valid() && list == old(list)
      ensures r.Ok? ==> r.value <= |buf|
      ensures r.Ok? && r.value < |buf| ==> 0 < r.value && (pos + r.value) % old(list[i].device.quantum) == 0
      ensures r == Err(ENOMEM) <==> budget < old(list[i].device.Missing(pos))
      ensures r.Err? ==> r == Err(ENOMEM) || (r == Err(EFAULT) && copy.Fault?)
      ensures r.Ok? ==>
                var dev := list[i].device;
                Stored(old(dev.Contents()), dev.Contents(), old(dev.quantum), pos, buf[..r.value])
      ensures forall j :: 0 <= j < |list| && j != i ==> list[j].device.Contents() == old(list[j].device.Contents())
    {
      hide Device.Valid, Device.Contents, Device.Missing, Stored, Kept;
      var pos';
      r, pos' := list[i].device.Write(pos, buf, copy, budget);
    }
  }
}
