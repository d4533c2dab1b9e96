/** The stack the default build links: a table of plugged submodules with their process
    data. The table is a fixed array of records that is filled and updated in place. */
module PnetStack {
  import opened CStrings
  import opened Numerals

  datatype Address = Address(api: u32, slot: u16, subslot: u16)

  datatype Submodule = Submodule(
    at: Address, moduleIdent: u32, submoduleIdent: u32, direction: u8,
    inputLen: u16, outputLen: u16, inputData: seq<u8>, outputData: seq<u8>,
    inputIops: u8, outputIops: u8, plugged: bool)

  const MAX_SUBMODULES: nat := 32
  const DATA_SIZE: nat := 256
  const GOOD: u8 := 0x80

  function ZeroBytes(): (z: seq<u8>)
    ensures |z| == DATA_SIZE && forall i | 0 <= i < DATA_SIZE :: z[i] == 0
  {
    seq(DATA_SIZE, _ => 0)
  }

  function ZeroSubmodule(): Submodule {
    Submodule(Address(0, 0, 0), 0, 0, 0, 0, 0, ZeroBytes(), ZeroBytes(), 0, 0, false)
  }

  /** What a plug call is given. */
  datatype Plug = Plug(at: Address, moduleIdent: u32, submoduleIdent: u32, direction: u8, inputLen: u16, outputLen: u16)

  function Plugged(p: Plug): Submodule {
    Submodule(p.at, p.moduleIdent, p.submoduleIdent, p.direction, p.inputLen, p.outputLen,
      ZeroBytes(), ZeroBytes(), GOOD, GOOD, true)
  }

  type Table = seq<Submodule>

  predicate FullBuffers(t: Table) {
    forall i | 0 <= i < |t| :: |t[i].inputData| == DATA_SIZE && |t[i].outputData| == DATA_SIZE
  }

  function PlugInto(t: Table, p: Plug): (Table, int) {
    if |t| >= MAX_SUBMODULES then (t, -1) else (t + [Plugged(p)], 0)
  }

  /** The first plugged submodule at an address; |t| when there is none. */
  function Lookup(t: Table, at: Address, i: nat): (n: nat)
    requires i <= |t|
    ensures i <= n <= |t| && (n < |t| ==> t[n].at == at && t[n].plugged)
    ensures forall j | i <= j < n :: !(t[j].at == at && t[j].plugged)
    decreases |t| - i
  {
    if i == |t| || (t[i].at == at && t[i].plugged) then i else Lookup(t, at, i + 1)
  }

  function Least(a: nat, b: nat): nat {
    if a < b then a else b
  }

  /** How many bytes pnet_input_set_data_and_iops takes from the caller's buffer. */
  function BytesTaken(t: Table, at: Address): nat {
    var n := Lookup(t, at, 0);
    if n == |t| then 0 else Least(t[n].inputLen, DATA_SIZE)
  }

  function SetInput(t: Table, at: Address, data: seq<u8>, iops: u8): (Table, int)
    requires FullBuffers(t) && BytesTaken(t, at) <= |data|
  {
    var n := Lookup(t, at, 0);
    if n == |t| then (t, -1)
    else
      var k := BytesTaken(t, at);
      (t[n := t[n].(inputData := data[..k] + t[n].inputData[k..], inputIops := iops)], 0)
  }

  /** How many bytes pnet_output_get_data_and_iops copies from the submodule's buffer. */
  function BytesGiven(t: Table, at: Address, room: u16): nat {
    var n := Lookup(t, at, 0);
    if n == |t| then 0 else Least(t[n].outputLen, room)
  }

  /** The bytes and the provider status pnet_output_get_data_and_iops returns. The copy must
      stay inside the submodule's buffer, which the code does not check. */
  function GetOutput(t: Table, at: Address, room: u16): Option<(seq<u8>, u8)>
    requires FullBuffers(t) && BytesGiven(t, at, room) <= DATA_SIZE
  {
    var n := Lookup(t, at, 0);
    if n == |t| then None else Some((t[n].outputData[..BytesGiven(t, at, room)], t[n].outputIops))
  }

  /** `n` is the first plugged submodule at `at`. */
  predicate FirstAt(t: Table, at: Address, n: nat) {
    n < |t| && t[n].at == at && t[n].plugged && forall j | 0 <= j < n :: t[j].at != at || !t[j].plugged
  }

  predicate NoneAt(t: Table, at: Address) {
    forall j | 0 <= j < |t| :: t[j].at != at || !t[j].plugged
  }

  /** What writing does: the first match gets its declared number of bytes, at most 256, and
      the status; without a match nothing happens. */
  lemma SetInputEffect(t: Table, at: Address, data: seq<u8>, iops: u8, n: nat)
    requires FullBuffers(t) && BytesTaken(t, at) <= |data|
    ensures NoneAt(t, at) ==> SetInput(t, at, data, iops) == (t, -1)
    ensures FirstAt(t, at, n) ==>
      var (u, rc) := SetInput(t, at, data, iops);
      var k := if t[n].inputLen < 256 then t[n].inputLen else 256;
      && rc == 0 && |u| == |t| && k <= |data| && |t[n].inputData| == 256
      && (forall i | 0 <= i < |t| && i != n :: u[i] == t[i])
      && u[n] == t[n].(inputData := data[..k] + t[n].inputData[k..], inputIops := iops)
  {
    LookupIs(t, at, n);
  }

  /** What reading returns: as many bytes of the first match as were asked for and declared,
      and its status. */
  lemma GetOutputEffect(t: Table, at: Address, room: u16, n: nat)
    requires FullBuffers(t) && BytesGiven(t, at, room) <= DATA_SIZE
    ensures NoneAt(t, at) ==> GetOutput(t, at, room) == None
    ensures FirstAt(t, at, n) ==>
      var k := if t[n].outputLen < room then t[n].outputLen else room;
      && k <= 256 == |t[n].outputData|
      && GetOutput(t, at, room) == Some((t[n].outputData[..k], t[n].outputIops))
  {
    LookupIs(t, at, n);
  }

  lemma LookupIs(t: Table, at: Address, n: nat)
    ensures NoneAt(t, at) ==> Lookup(t, at, 0) == |t|
    ensures FirstAt(t, at, n) ==> Lookup(t, at, 0) == n
  {
    var m := Lookup(t, at, 0);
  }

  class Pnet {
    const submodules: array<Submodule>
    var count: nat

    ghost predicate Valid()
      reads this, submodules
    {
      && submodules.Length == MAX_SUBMODULES && count <= MAX_SUBMODULES
      && (forall i | count <= i < MAX_SUBMODULES :: submodules[i] == ZeroSubmodule())
      && FullBuffers(submodules[..])
    }

    ghost function View(): Table
      requires count <= submodules.Length
      reads this, submodules
    {
      submodules[..count]
    }

    /** pnet_init, when calloc succeeds. */
    constructor ()
      ensures Valid() && View() == [] && fresh(submodules)
    {
      submodules := new Submodule[MAX_SUBMODULES](_ => ZeroSubmodule());
      count := 0;
    }

    method PlugSubmodule(p: Plug) returns (rc: int)
      requires Valid()
      modifies `count, submodules
      ensures Valid() && (View(), rc) == PlugInto(old(View()), p)
      ensures old(count) == 32 ==> rc == -1 && View() == old(View())
      ensures old(count) < 32 ==> rc == 0 && count == old(count) + 1 && View()[..old(count)] == old(View())
      ensures old(count) < 32 ==> var sm := View()[old(count)];
        && sm.at == p.at && sm.moduleIdent == p.moduleIdent && sm.submoduleIdent == p.submoduleIdent
        && sm.direction == p.direction && sm.inputLen == p.inputLen && sm.outputLen == p.outputLen
        && sm.plugged && sm.inputIops == sm.outputIops == 0x80
    {
      hide ZeroBytes;
      if count >= MAX_SUBMODULES {
        return -1;
      }
      var sm := submodules[count];
      submodules[count] := sm.(at := p.at, moduleIdent := p.moduleIdent, submoduleIdent := p.submoduleIdent,
        direction := p.direction, inputLen := p.inputLen, outputLen := p.outputLen,
        inputIops := GOOD, outputIops := GOOD, plugged := true);
      count := count + 1;
      assert View() == old(View()) + [Plugged(p)];
      return 0;
    }

    method InputSetDataAndIops(at: Address, data: seq<u8>, iops: u8) returns (rc: int)
      requires Valid() && BytesTaken(View(), at) <= |data|
      modifies submodules
      ensures Valid() && FullBuffers(old(View())) && BytesTaken(old(View()), at) <= |data|
      ensures (View(), rc) == SetInput(old(View()), at, data, iops)
    {
      ghost var t := View();
      assert FullBuffers(t);
      var i := 0;
      while i < count && !(submodules[i].at == at && submodules[i].plugged)
        invariant 0 <= i <= count
        invariant Lookup(t, at, 0) == Lookup(t, at, i)
      {
        i := i + 1;
      }
      if i == count {
        return -1;
      }
      var sm := submodules[i];
      var len := if sm.inputLen < 256 then sm.inputLen else 256;
      submodules[i] := sm.(inputData := data[..len] + sm.inputData[len..], inputIops := iops);
      assert View() == t[i := submodules[i]];
      return 0;
    }

    method OutputGetDataAndIops(at: Address, room: u16) returns (r: Option<(seq<u8>, u8)>)
      requires Valid() && BytesGiven(View(), at, room) <= DATA_SIZE
      ensures FullBuffers(View()) && r == GetOutput(View(), at, room)
    {
      ghost var t := View();
      assert FullBuffers(t);
      var i := 0;
      while i < count && !(submodules[i].at == at && submodules[i].plugged)
        invariant 0 <= i <= count
        invariant Lookup(t, at, 0) == Lookup(t, at, i)
      {
        i := i + 1;
      }
      if i == count {
        return None;
      }
      var sm := submodules[i];
      var len := if sm.outputLen < room then sm.outputLen else room;
      return Some((sm.outputData[..len], sm.outputIops));
    }
  }
}
