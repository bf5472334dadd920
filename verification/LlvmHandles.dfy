/** The numbers under which the C++ bridge hands out LLVM objects (llvm_bridge.cc:23-83): 32
    bits of session, 30 of table index, 2 of kind. */
module LlvmHandles {
  import opened Wrappers

  /** UINT32_MAX >> 2: where a table is full. */
  const TABLE_LIMIT: nat := 0x3fff_ffff

  const SESSION_LIMIT: nat := 0xffff_ffff

  datatype Kind = Types | Values | Blocks

  function Code(k: Kind): nat {
    match k
    case Types => 1
    case Values => 2
    case Blocks => 3
  }

  function Pack(id: nat, index: nat, code: nat): nat { id * 0x1_0000_0000 + index * 4 + code }

  function IdOf(h: nat): nat { h / 0x1_0000_0000 }

  function IndexOf(h: nat): nat { h % 0x1_0000_0000 / 4 }

  function CodeOf(h: nat): nat { h % 4 }

  /** The shifted fields do not overlap, so the source's `or` adds them up. */
  lemma OrAdds(id: bv64, index: bv64, code: bv64)
    requires id <= 0xffff_ffff && index <= 0x3fff_ffff && code <= 3
    ensures (id << 32) | (index << 2) | code == id * 0x1_0000_0000 + index * 4 + code
    ensures ((id << 32) | (index << 2) | code) >> 32 == id
  {
  }

  /** Within the limits no field spills into another, and the number fits 64 bits. */
  lemma Unpacks(id: nat, index: nat, code: nat)
    requires id <= SESSION_LIMIT && index <= TABLE_LIMIT && code <= 3
    ensures IdOf(Pack(id, index, code)) == id && IndexOf(Pack(id, index, code)) == index && CodeOf(Pack(id, index, code)) == code
    ensures Pack(id, index, code) < 0x1_0000_0000_0000_0000
  {
    HighLow(id, index * 4 + code);
    IndexCode(index, code);
    var q := id * 0x4000_0000 + index;
    assert Pack(id, index, code) == q * 4 + code;
    IndexCode(q, code);
  }

  lemma HighLow(q: nat, r: nat)
    requires r < 0x1_0000_0000
    ensures (q * 0x1_0000_0000 + r) / 0x1_0000_0000 == q && (q * 0x1_0000_0000 + r) % 0x1_0000_0000 == r
  {
  }

  lemma IndexCode(q: nat, r: nat)
    requires r < 4
    ensures (q * 4 + r) / 4 == q && (q * 4 + r) % 4 == r
  {
  }

  lemma Repacks(h: nat)
    ensures Pack(IdOf(h), IndexOf(h), CodeOf(h)) == h
  {
    var low := h % 0x1_0000_0000;
    assert h == IdOf(h) * 0x1_0000_0000 + low;
    assert low == low / 4 * 4 + low % 4 && h % 4 == low % 4;
  }

  /** The handle of entry `i` of a table. */
  function Handle(id: nat, i: nat, k: Kind): nat { Pack(id, i, Code(k)) }

  /** 32 bits of session, 30 of index, and 1, 2 or 3 for the table in the last two. */
  lemma HandleFields(id: nat, i: nat, k: Kind)
    requires id <= 0xffff_ffff && i <= 0x3fff_ffff
    ensures var h := Handle(id, i, k);
            && h / 0x1_0000_0000 == id && h / 4 % 0x4000_0000 == i && h < 0x1_0000_0000_0000_0000
            && h % 4 == match k case Types => 1 case Values => 2 case Blocks => 3
  {
    Unpacks(id, i, Code(k));
    IndexCode(id * 0x4000_0000 + i, Code(k));
    assert Handle(id, i, k) == (id * 0x4000_0000 + i) * 4 + Code(k);
    assert (id * 0x4000_0000 + i) % 0x4000_0000 == i;
  }

  /** Handles are never issued twice, whichever sessions, tables and entries they are from. */
  lemma HandlesDistinct(id: nat, i: nat, k: Kind, id': nat, i': nat, k': Kind)
    requires id <= SESSION_LIMIT && i <= TABLE_LIMIT && id' <= SESSION_LIMIT && i' <= TABLE_LIMIT
    requires Handle(id, i, k) == Handle(id', i', k')
    ensures id == id' && i == i' && k == k'
  {
    hide Pack, IdOf, IndexOf, CodeOf;
    Unpacks(id, i, Code(k));
    Unpacks(id', i', Code(k'));
  }

  /** An object is known by its address; 0 is no object. */
  class Session {
    const id: nat
    var types: seq<nat>
    var values: seq<nat>
    var blocks: seq<nat>

    ghost predicate Valid()
      reads this
    {
      0 < id <= SESSION_LIMIT && forall k: Kind :: 0 < |Table(k)| <= TABLE_LIMIT
    }

    function Table(k: Kind): seq<nat>
      reads this
    {
      match k
      case Types => types
      case Values => values
      case Blocks => blocks
    }

    constructor (id: nat)
      requires 0 < id <= SESSION_LIMIT
      ensures Valid() && this.id == id && forall k: Kind :: Table(k) == [0]
    {
      this.id, types, values, blocks := id, [0], [0], [0];
    }

    /** `h` was issued for entry `i` of that table. */
    ghost predicate Issued(h: nat, i: nat, k: Kind)
      requires Valid()
      reads this
    {
      0 < i < |Table(k)| && h == Handle(id, i, k)
    }

    /** None when the table is full. */
    method Add(k: Kind, x: nat) returns (h: Option<nat>)
      requires Valid()
      modifies this
      ensures Valid() && forall j: Kind :: j != k ==> Table(j) == old(Table(j))
      ensures x == 0 ==> h == Some(0) && Table(k) == old(Table(k))
      ensures x != 0 ==> (h.None? <==> |old(Table(k))| * 4 + 3 >= 0xffff_ffff)
      ensures h.None? ==> Table(k) == old(Table(k))
      ensures x != 0 && h.Some? ==> Table(k) == old(Table(k)) + [x] && Issued(h.value, |old(Table(k))|, k)
    {
      hide Pack;
      if x == 0 { return Some(0); }
      var n := |Table(k)|;
      if n >= TABLE_LIMIT { return None; }
      match k {
        case Types => types := types + [x];
        case Values => values := values + [x];
        case Blocks => blocks := blocks + [x];
      }
      assert forall j: Kind :: j != k ==> Table(j) == old(Table(j));
      assert Table(k) == old(Table(k)) + [x];
      h := Some(Handle(id, n, k));
    }

    /** Succeeds exactly on the handles this session issued for this table, with the object
        that was stored. */
    method Get(k: Kind, h: nat) returns (x: Option<nat>)
      requires Valid()
      ensures x.Some? <==> exists i: nat :: Issued(h, i, k)
      ensures forall i: nat :: Issued(h, i, k) ==> x == Some(Table(k)[i])
    {
      hide Pack, IdOf, IndexOf, CodeOf;
      var i := IndexOf(h);
      Answers(h, k);
      if IdOf(h) != id || CodeOf(h) != Code(k) || i == 0 || i >= |Table(k)| { return None; }
      x := Some(Table(k)[i]);
    }

    /** The three tests pick out the issued handles. */
    lemma Answers(h: nat, k: Kind)
      requires Valid()
      ensures (IdOf(h) == id && CodeOf(h) == Code(k) && 0 < IndexOf(h) < |Table(k)|) <==> Issued(h, IndexOf(h), k)
      ensures forall j: nat :: Issued(h, j, k) ==> j == IndexOf(h)
    {
      hide Pack, IdOf, IndexOf, CodeOf;
      Repacks(h);
      forall j: nat | 0 < j < |Table(k)|
        ensures IdOf(Handle(id, j, k)) == id && CodeOf(Handle(id, j, k)) == Code(k) && IndexOf(Handle(id, j, k)) == j
      {
        Unpacks(id, j, Code(k));
      }
    }
  }

  /** Sessions are numbered from 1; a session that would not fit 32 bits is refused. */
  class Bridge {
    var next: nat

    constructor ()
      ensures next == 1
    {
      next := 1;
    }

    method NewSession() returns (s: Session?)
      requires next > 0
      modifies this
      ensures next == old(next) + 1
      ensures s == null <==> old(next) >= 0x1_0000_0000
      ensures s != null ==> fresh(s) && s.Valid() && s.id == old(next)
    {
      var id := next;
      next := next + 1;
      if id > SESSION_LIMIT { return null; }
      s := new Session(id);
    }
  }
}
