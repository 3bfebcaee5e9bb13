/**
  The packet buffer (lispd/lib/lbuf.c, lbuf.h): allocated memory, the part of it in use, and markers
  for headers. Positions count from the start of the memory; a marker that is not set is absent.
 */
module Lbuf {
  import opened Bytes

  /** Markers are 16 bits wide, and all ones means not set. */
  const UNSET := 0xFFFF

  datatype Marker = OuterIp | OuterUdp | LispHeader | Layer3 | Layer4 | Lisp

  function Max(a: nat, b: nat): nat {
    if a >= b then a else b
  }

  function Shifted(markers: map<Marker, nat>, d: nat): map<Marker, nat> {
    map m | m in markers :: markers[m] + d
  }

  /** memcpy into newly allocated memory */
  method Copied(src: array<Byte>, from: nat, n: nat, length: nat, to: nat) returns (r: array<Byte>)
    requires from + n <= src.Length && to + n <= length
    ensures fresh(r) && r.Length == length && r[to..to + n] == src[from..from + n]
  {
    r := new Byte[length];
    forall i | 0 <= i < n {
      r[to + i] := src[from + i];
    }
  }

  class Buffer {
    var base: array<Byte>
    var data: nat
    var size: nat
    var markers: map<Marker, nat>

    ghost predicate Valid()
      reads this
    {
      data + size <= base.Length && forall m :: m in markers ==> markers[m] <= data + size
    }

    ghost function Contents(): seq<Byte>
      reads this, base
      requires Valid()
    {
      base[data..data + size]
    }

    /** The bytes from a marker to the tail. */
    ghost function From(m: Marker): seq<Byte>
      reads this, base
      requires Valid() && m in markers
    {
      base[markers[m]..data + size]
    }

    lemma FromIs(m: Marker)
      requires Valid() && m in markers && markers[m] >= data
      ensures From(m) == Contents()[markers[m] - data..]
    {}

    /** lbuf_new_with_headroom: zeroed memory, all of it room */
    constructor (room: nat, headroom: nat)
      ensures Valid() && fresh(base) && data == headroom && size == 0 && markers == map[]
      ensures base.Length == headroom + room && forall i :: 0 <= i < base.Length ==> base[i] == 0
    {
      base := new Byte[headroom + room](_ => 0);
      data, size, markers := headroom, 0, map[];
    }

    /**
      lbuf_resize_: with the same headroom everything in use and before it is kept; otherwise only
      what is in use, and every marker at or after it still points at the same bytes.
     */
    method Resize(headroom: nat, tailroom: nat)
      requires Valid() && headroom >= data && (headroom > data ==> headroom + size < UNSET)
      modifies this
      ensures Valid() && fresh(base)
      ensures base.Length == headroom + size + tailroom && data == headroom && size == old(size)
      ensures Contents() == old(Contents())
      ensures markers == Shifted(old(markers), headroom - old(data))
      ensures headroom == old(data) ==> base[..data + size] == old(base[..data + size])
      ensures forall m :: m in markers && old(markers[m]) >= old(data) ==> From(m) == old(From(m))
    {
      if headroom == data {
        base := Copied(base, 0, data + size, headroom + size + tailroom, 0);
        assert markers == Shifted(markers, 0);
        assert base[data..data + size] == base[..data + size][data..];
      } else {
        base := Copied(base, data, size, headroom + size + tailroom, headroom);
        markers := Shifted(markers, headroom - data);
        data := headroom;
      }
      MarkersKept();
    }

    /** The markers at or after the bytes in use point into them. */
    twostate lemma MarkersKept()
      requires old(Valid()) && Valid() && old(data) <= data && Contents() == old(Contents())
      requires markers == Shifted(old(markers), data - old(data))
      ensures forall m :: m in markers && old(markers[m]) >= old(data) ==> From(m) == old(From(m))
    {
      forall m | m in markers && old(markers[m]) >= old(data)
        ensures From(m) == old(From(m))
      {
        FromIs(m);
        assert old(From(m)) == old(Contents())[old(markers[m]) - old(data)..];
      }
    }

    /** lbuf_prealloc_tailroom and lbuf_put_uninit */
    method PutUninit(n: nat)
      requires Valid()
      modifies this
      ensures Valid() && (base == old(base) || fresh(base))
      ensures data == old(data) && size == old(size) + n && markers == old(markers)
      ensures base[..data + old(size)] == old(base[..data + size])
      ensures Contents()[..old(size)] == old(Contents())
    {
      if n > base.Length - (data + size) {
        Resize(data, Max(n, 64));
        assert markers == old(markers);
      }
      size := size + n;
    }

    /** lbuf_prealloc_headroom and lbuf_push_uninit */
    method PushUninit(n: nat)
      requires Valid() && (n > data ==> Max(n, 64) + size < UNSET)
      modifies this
      ensures Valid() && (base == old(base) || fresh(base))
      ensures size == old(size) + n && Contents()[n..] == old(Contents())
      ensures n <= old(data) ==> base == old(base) && data == old(data) - n
      ensures n > old(data) ==> data == Max(n, 64) - n
      ensures markers == Shifted(old(markers), data + n - old(data))
      ensures forall m :: m in markers && old(markers[m]) >= old(data) ==> From(m) == old(From(m))
    {
      if n > data {
        Resize(Max(n, 64), base.Length - (data + size));
      } else {
        assert markers == Shifted(markers, 0);
      }
      data := data - n;
      size := size + n;
    }

    /** Bytes written over part of what is in use */
    method Write(at: nat, s: seq<Byte>)
      requires Valid() && at + |s| <= size
      modifies base
      ensures Contents() == old(Contents())[..at] + s + old(Contents())[at + |s|..]
      ensures forall i :: 0 <= i < base.Length && !(data + at <= i < data + at + |s|) ==> base[i] == old(base[i])
    {
      forall i | 0 <= i < |s| {
        base[data + at + i] := s[i];
      }
    }

    /** lbuf_put */
    method Put(s: seq<Byte>)
      requires Valid()
      modifies this, base
      ensures Valid() && (base == old(base) || fresh(base))
      ensures Contents() == old(Contents()) + s && data == old(data) && markers == old(markers)
      ensures forall i :: 0 <= i < data ==> base[i] == old(base[i])
    {
      var at := size;
      ghost var before := base[..data + size];
      PutUninit(|s|);
      assert forall i :: 0 <= i < data ==> base[i] == base[..data + at][i] == before[i];
      Write(at, s);
    }

    /** lbuf_push */
    method Push(s: seq<Byte>)
      requires Valid() && (|s| > data ==> Max(|s|, 64) + size < UNSET)
      modifies this, base
      ensures Valid() && (base == old(base) || fresh(base))
      ensures Contents() == s + old(Contents())
      ensures data == (if |s| <= old(data) then old(data) else Max(|s|, 64)) - |s|
      ensures |s| <= old(data) ==> base == old(base) && forall i :: 0 <= i < data ==> base[i] == old(base[i])
      ensures markers == Shifted(old(markers), data + |s| - old(data))
    {
      PushUninit(|s|);
      assert Contents()[|s|..] == old(Contents());
      Write(0, s);
    }

    /** lbuf_pull */
    method Pull(n: nat) returns (ok: bool)
      requires Valid()
      modifies this`data, this`size
      ensures Valid() && ok == (n <= old(size))
      ensures Contents() == if ok then old(Contents())[n..] else old(Contents())
      ensures ok ==> data == old(data) + n
    {
      if n > size { return false; }
      data, size := data + n, size - n;
      return true;
    }

    /** lbuf_reset_ip and the like */
    method Mark(m: Marker)
      requires Valid() && data < UNSET
      modifies this`markers
      ensures Valid() && markers == old(markers)[m := data] && From(m) == Contents()
    {
      markers := markers[m := data];
    }

    /** lbuf_point_to_ip and the like */
    method PointTo(m: Marker) returns (ok: bool)
      requires Valid()
      modifies this`data, this`size
      ensures Valid() && ok == (m in markers)
      ensures ok ==> Contents() == old(From(m)) && data == markers[m]
      ensures !ok ==> Contents() == old(Contents())
    {
      if m !in markers { return false; }
      var tail := data + size;
      data := markers[m];
      size := tail - data;
      return true;
    }
  }
}
