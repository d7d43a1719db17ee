/**
 * The string-interning table: a growable global array of (string, hash)
 * slots. Ids start at 1 (slot 0 stays the zeroed "no string" slot), each
 * distinct string is stored once, and the storage doubles when full.
 */
module Quark {

  import opened CInt

  /** A slot of the array: the stored string (None for the zeroed NULL pointer) and its hash. */
  datatype Entry = Entry(str: Option<string>, hash: int)

  /** QUARKS_INIT: the capacity quarks_init allocates. */
  const QuarksInit: nat := 16

  class QuarkTable {
    /** The string hash (djb2_hash), which is not part of this model. */
    const hashOf: string -> int

    var quarks: array<Entry>
    var nrQuarks: nat
    var allocQuarks: nat

    /** Strings[q - 1] is the string whose id is q. */
    ghost var Strings: seq<string>

    ghost predicate Valid()
      reads this, quarks
    {
      && quarks.Length == allocQuarks
      && 1 <= nrQuarks <= allocQuarks
      && |Strings| == nrQuarks - 1
      && quarks[0].str == None
      && (forall q :: 1 <= q < nrQuarks ==> quarks[q] == Entry(Some(Strings[q - 1]), hashOf(Strings[q - 1])))
      && (forall i, j :: 0 <= i < j < |Strings| ==> Strings[i] != Strings[j])
    }

    /** The static initial state: one (reserved) quark counted, nothing allocated. */
    constructor (hashOf: string -> int)
      ensures this.hashOf == hashOf
      ensures nrQuarks == 1 && allocQuarks == 0 && quarks.Length == 0 && Strings == []
    {
      this.hashOf := hashOf;
      quarks := new Entry[0];
      nrQuarks := 1;
      allocQuarks := 0;
      Strings := [];
    }

    /** quarks_init: allocate QUARKS_INIT zeroed slots. */
    method Init()
      requires nrQuarks == 1 && Strings == []
      modifies this
      ensures Valid() && fresh(quarks)
      ensures allocQuarks == QuarksInit && nrQuarks == 1 && Strings == []
      ensures forall k :: 0 <= k < quarks.Length ==> quarks[k] == Entry(None, 0)
    {
      allocQuarks := QuarksInit;
      quarks := new Entry[QuarksInit](_ => Entry(None, 0));
    }

    /**
     * quark_str: the string with id q, or None (NULL) when q is not below the
     * count. Id 0 yields the zeroed slot's NULL.
     */
    function Str(q: nat): (r: Option<string>)
      reads this, quarks
      requires Valid()
      ensures q == 0 || q >= nrQuarks ==> r == None
      ensures 1 <= q < nrQuarks ==> r == Some(Strings[q - 1])
    {
      if q >= nrQuarks then None else quarks[q].str
    }

    /**
     * quark_add's linear scan over the used slots, comparing hashes first
     * and strings second: the id of s when it is stored.
     */
    method Find(s: string) returns (found: bool, q: nat)
      requires Valid()
      ensures found ==> 1 <= q < nrQuarks && Strings[q - 1] == s
      ensures !found ==> s !in Strings
    {
      var hash := hashOf(s);
      q := 1;
      while q < nrQuarks
        invariant 1 <= q <= nrQuarks
        invariant forall k :: 0 <= k < q - 1 ==> Strings[k] != s
      {
        if quarks[q].hash == hash && quarks[q].str == Some(s) {
          return true, q;
        }
        q := q + 1;
      }
      return false, q;
    }

    /**
     * quark_add's reallocation when full: twice the slots and the used ones
     * copied. mem_realloc leaves the new slots uninitialised; the model
     * fills them with a placeholder and no contract speaks of them.
     */
    method Grow()
      requires Valid() && nrQuarks == allocQuarks
      modifies this
      ensures Valid() && fresh(quarks)
      ensures allocQuarks == 2 * old(allocQuarks) && nrQuarks == old(nrQuarks) && Strings == old(Strings)
      ensures forall k :: 0 <= k < nrQuarks ==> quarks[k] == old(quarks[k])
    {
      var bigger := new Entry[2 * allocQuarks](_ => Entry(None, 0));
      var i := 0;
      while i < nrQuarks
        invariant 0 <= i <= nrQuarks && bigger.Length == 2 * allocQuarks
        invariant forall k :: 0 <= k < i ==> bigger[k] == quarks[k]
        modifies bigger
      {
        bigger[i] := quarks[i];
        i := i + 1;
      }
      allocQuarks := 2 * allocQuarks;
      quarks := bigger;
    }

    /**
     * quark_add: the id of s, appending s (after growing the storage when
     * it is full) when it is not yet stored.
     */
    method Add(s: string) returns (q: nat)
      requires Valid()
      modifies this, quarks
      ensures Valid()
      ensures quarks == old(quarks) || fresh(quarks)
      ensures q >= 1 && Str(q) == Some(s)
      ensures s in old(Strings) ==>
        && q - 1 < |old(Strings)| && old(Strings)[q - 1] == s
        && Strings == old(Strings) && nrQuarks == old(nrQuarks) && allocQuarks == old(allocQuarks)
        && quarks == old(quarks) && quarks[..] == old(quarks[..])
      ensures s !in old(Strings) ==>
        && q == old(nrQuarks) && nrQuarks == old(nrQuarks) + 1
        && Strings == old(Strings) + [s]
        && allocQuarks == (if old(nrQuarks) == old(allocQuarks) then 2 * old(allocQuarks) else old(allocQuarks))
      ensures forall k :: 0 <= k < old(nrQuarks) ==> quarks[k] == old(quarks[k])
    {
      var found;
      found, q := Find(s);
      if found {
        return;
      }
      if nrQuarks == allocQuarks {
        Grow();
      }
      q := nrQuarks;
      quarks[q] := Entry(Some(s), hashOf(s));
      nrQuarks := nrQuarks + 1;
      Strings := Strings + [s];
    }

    /**
     * quarks_free: the strings handed to string_free, in order. The scan
     * starts at 1, so the reserved slot 0 is never freed.
     */
    method Free() returns (freed: seq<string>)
      requires Valid()
      ensures freed == Strings
    {
      freed := [];
      var i := 1;
      while i < nrQuarks
        invariant 1 <= i <= nrQuarks
        invariant freed == Strings[..i - 1]
      {
        freed := freed + [quarks[i].str.value];
        i := i + 1;
      }
    }
  }

  /** The table as the program uses it: init, then interning a string twice gives one id. */
  method InternTwice(hashOf: string -> int, s: string, t: string) returns (a: nat, b: nat, c: nat)
    ensures a == 1 && b == a
    ensures c == (if t == s then 1 else 2)
  {
    var table := new QuarkTable(hashOf);
    table.Init();
    a := table.Add(s);
    b := table.Add(s);
    c := table.Add(t);
  }
}
