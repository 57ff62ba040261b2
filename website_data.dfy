/**
 * The website-data manager (com/wpe/wpe/WKWebsiteDataManager.java).
 *
 * Each kind of website data WebKit stores has one bit in WebKit's
 * `WebKitWebsiteDataTypes` mask (bit 0 memory cache, ..., bit 13 DOM cache)
 * and "all" is the mask of bits 0 to 13. Clearing a set of kinds ORs their
 * bits and asks native code to clear that mask.
 *
 * The enum declares HstsCache with bit 8, the bit of Cookies, where WebKit's
 * HSTS cache bit is 10. `ValueAsWritten` models the declaration as written,
 * and `clear` sends the mask it gives (`ClearFlagsAsWritten`);
 * `HstsCacheClearsCookies` and `ClearHstsCacheOnly` show the consequence.
 * `Value` gives HstsCache bit 10, and `ClearFlags` is the mask `clear` is
 * meant to send.
 */
module WebsiteData {
  import opened Wrappers

  /** `WebsiteDataType`, in declaration order. */
  datatype WebsiteDataType =
    | MemoryCache | DiskCache | OfflineApplicationCache | SessionStorage | LocalStorage
    | WebSqlDatabases | IndexDbDatabases | PluginData | Cookies | DeviceIdHashSalt
    | HstsCache | Itp | ServiceWorkerRegistrations | DomCache | All

  /** The declaration order, which is the order an `EnumSet` streams its members in. */
  const DeclarationOrder: seq<WebsiteDataType> := [
    MemoryCache, DiskCache, OfflineApplicationCache, SessionStorage, LocalStorage,
    WebSqlDatabases, IndexDbDatabases, PluginData, Cookies, DeviceIdHashSalt,
    HstsCache, Itp, ServiceWorkerRegistrations, DomCache, All]

  /** The bit index WebKit gives each kind of data; `All` carries the count of kinds. */
  function BitIndex(t: WebsiteDataType): (i: nat)
    ensures i <= 14
  {
    match t
    case MemoryCache => 0
    case DiskCache => 1
    case OfflineApplicationCache => 2
    case SessionStorage => 3
    case LocalStorage => 4
    case WebSqlDatabases => 5
    case IndexDbDatabases => 6
    case PluginData => 7
    case Cookies => 8
    case DeviceIdHashSalt => 9
    case HstsCache => 10
    case Itp => 11
    case ServiceWorkerRegistrations => 12
    case DomCache => 13
    case All => 14
  }

  /** The kind WebKit gives bit index `i`. */
  function TypeOfIndex(i: nat): WebsiteDataType
    requires i <= 14
  {
    DeclarationOrder[i]
  }

  /** Bit indices tell the kinds apart. */
  lemma BitIndexInverse(t: WebsiteDataType)
    ensures TypeOfIndex(BitIndex(t)) == t
  {
  }

  /** The index as the enum declares it: the same, except that HstsCache repeats 8. */
  function DeclaredIndex(t: WebsiteDataType): (i: nat)
    ensures i <= 14
    ensures t != HstsCache ==> i == BitIndex(t)
  {
    if t == HstsCache then 8 else BitIndex(t)
  }

  /** The mask of bits 0 to `n - 1`, i.e. `(1 << n) - 1`. */
  function LowBits(n: nat): bv32
    requires n <= 31
  {
    ((1 as bv32) << n) - 1
  }

  /** `getValue` for an index: one bit, or all lower bits for the index of `All`. */
  function ValueOfIndex(index: nat): bv32
    requires index <= 14
  {
    if index == 14 then LowBits(14) else (1 as bv32) << index
  }

  /**
   * `getValue` with WebKit's bit for every kind, one literal per kind;
   * `ValueFormula` shows these are `1 << index`, and all lower bits for `All`.
   */
  function Value(t: WebsiteDataType): bv32
  {
    match t
    case MemoryCache => 0x1
    case DiskCache => 0x2
    case OfflineApplicationCache => 0x4
    case SessionStorage => 0x8
    case LocalStorage => 0x10
    case WebSqlDatabases => 0x20
    case IndexDbDatabases => 0x40
    case PluginData => 0x80
    case Cookies => 0x100
    case DeviceIdHashSalt => 0x200
    case HstsCache => 0x400
    case Itp => 0x800
    case ServiceWorkerRegistrations => 0x1000
    case DomCache => 0x2000
    case All => 0x3fff
  }

  /** `getValue`'s formula gives a kind other than `All` the single bit of its index, and `All` bits 0 to 13. */
  lemma ValueFormula(t: WebsiteDataType)
    ensures Value(t) == ValueOfIndex(BitIndex(t))
    ensures t != All ==> Value(t) == (1 as bv32) << BitIndex(t)
    ensures t == All ==> Value(t) == 0x3fff
  {
    match t
    case MemoryCache =>
    case DiskCache =>
    case OfflineApplicationCache =>
    case SessionStorage =>
    case LocalStorage =>
    case WebSqlDatabases =>
    case IndexDbDatabases =>
    case PluginData =>
    case Cookies =>
    case DeviceIdHashSalt =>
    case HstsCache =>
    case Itp =>
    case ServiceWorkerRegistrations =>
    case DomCache =>
    case All =>
  }

  /**
   * `getValue` as written: the value of the kind whose WebKit index is the
   * declared one, so the value of Cookies for HstsCache.
   */
  function ValueAsWritten(t: WebsiteDataType): (v: bv32)
    ensures t != HstsCache ==> v == Value(t)
    ensures t == HstsCache ==> v == Value(Cookies)
  {
    BitIndexInverse(t);
    Value(TypeOfIndex(DeclaredIndex(t)))
  }

  /** `ValueAsWritten` is `getValue`'s formula applied to the declared index. */
  lemma ValueAsWrittenFormula(t: WebsiteDataType)
    ensures ValueAsWritten(t) == ValueOfIndex(DeclaredIndex(t))
  {
    ValueFormula(if t == HstsCache then Cookies else t);
  }

  /** As written, asking for the HSTS cache gives the cookies bit, and bit 10 belongs to no single kind. */
  lemma HstsCacheClearsCookies()
    ensures ValueAsWritten(HstsCache) == ValueAsWritten(Cookies) == 0x100
    ensures forall t :: t != All ==> ValueAsWritten(t) != 0x400
  {
  }

  /** Each kind other than `All` has its own single bit, and `All` covers every one of them. */
  lemma ValuesAreDistinctBits(t: WebsiteDataType, u: WebsiteDataType)
    ensures t != u ==> Value(t) != Value(u)
    ensures t != All ==> Value(t) & Value(All) == Value(t) && Value(t) != 0
    ensures t != All && u != All && t != u ==> Value(t) & Value(u) == 0
  {
    BitIndexInverse(t);
    BitIndexInverse(u);
    ValueFormula(t);
    ValueFormula(u);
    if t != All && u != All && t != u {
      SingleBitsDisjoint(BitIndex(t), BitIndex(u));
    }
    if t != All {
      SingleBitsDisjoint(BitIndex(t), if BitIndex(t) == 0 then 1 else 0);
    }
  }

  lemma SingleBitsDisjoint(i: nat, j: nat)
    requires i < 14 && j < 14 && i != j
    ensures ((1 as bv32) << i) & ((1 as bv32) << j) == 0
    ensures ((1 as bv32) << i) & 0x3fff == (1 as bv32) << i
    ensures ((1 as bv32) << i) != 0 && ((1 as bv32) << i) != 0x3fff
  {
  }

  /** Which values the kinds get: as the enum declares them, or WebKit's bits. */
  datatype Table = AsDeclared | WebKitBits

  function TableValue(table: Table, t: WebsiteDataType): bv32
  {
    if table == AsDeclared then ValueAsWritten(t) else Value(t)
  }

  /** What kind `u` adds to the flags: its value in `table` when it is requested, else nothing. */
  function Contribution(u: WebsiteDataType, types: set<WebsiteDataType>, table: Table): bv32
  {
    if u in types then TableValue(table, u) else 0
  }

  /** The flags of the kinds in `types` among `order`, ORed in the order given. */
  function FlagsOver(order: seq<WebsiteDataType>, types: set<WebsiteDataType>, table: Table): bv32
  {
    if order == [] then 0
    else FlagsOver(order[..|order| - 1], types, table) | Contribution(order[|order| - 1], types, table)
  }

  /** The flags `clear` computes with the enum as declared. */
  function ClearFlagsAsWritten(types: set<WebsiteDataType>): (f: bv32)
    ensures f & !0x3fff == 0
  {
    FlagsOverInRange(DeclarationOrder, types, AsDeclared);
    FlagsOver(DeclarationOrder, types, AsDeclared)
  }

  /** The flags `clear` is meant to compute, with WebKit's bit for every kind. */
  function ClearFlags(types: set<WebsiteDataType>): (f: bv32)
    ensures f & !0x3fff == 0
  {
    FlagsOverInRange(DeclarationOrder, types, WebKitBits);
    FlagsOver(DeclarationOrder, types, WebKitBits)
  }

  /** The last kind of a non-empty order is in it, and so is every kind of the rest. */
  lemma InOrder(order: seq<WebsiteDataType>, x: WebsiteDataType)
    requires order != []
    ensures x in order <==> x in order[..|order| - 1] || x == order[|order| - 1]
  {
    assert order == order[..|order| - 1] + [order[|order| - 1]];
  }

  lemma OrHasBit(a: bv32, b: bv32, bit: bv32)
    ensures (a | b) & bit != 0 <==> a & bit != 0 || b & bit != 0
  {
    assert (a | b) & bit == (a & bit) | (b & bit);
  }

  lemma ZeroHasNoBit(bit: bv32)
    ensures (0 as bv32) & bit == 0
  {
  }

  /** With WebKit's bits, a kind's bit is in the flags exactly when it or `All` was requested from among `order`. */
  lemma {:induction false} FlagsOverBits(order: seq<WebsiteDataType>, types: set<WebsiteDataType>, t: WebsiteDataType)
    requires t != All
    ensures FlagsOver(order, types, WebKitBits) & Value(t) != 0 <==>
      (t in types && t in order) || (All in types && All in order)
  {
    if order != [] {
      var init := order[..|order| - 1];
      var u := order[|order| - 1];
      var a, b := FlagsOver(init, types, WebKitBits), Contribution(u, types, WebKitBits);
      assert FlagsOver(order, types, WebKitBits) == a | b;
      FlagsOverBits(init, types, t);
      ContributionHasBit(types, t, u);
      OrHasBit(a, b, Value(t));
      InOrder(order, t);
      InOrder(order, All);
    }
  }

  /** A requested kind's value carries `t`'s bit exactly when it is `t` or `All`. */
  lemma ContributionHasBit(types: set<WebsiteDataType>, t: WebsiteDataType, u: WebsiteDataType)
    requires t != All
    ensures Contribution(u, types, WebKitBits) & Value(t) != 0 <==> u in types && (u == t || u == All)
  {
    ValuesAreDistinctBits(t, u);
    ValuesAreDistinctBits(u, u);
  }

  /**
   * With the enum as declared, the HSTS cache bit is in the flags only when
   * `All` was requested, and the cookies bit also when the HSTS cache was.
   */
  lemma {:induction false} FlagsOverBitsAsWritten(order: seq<WebsiteDataType>, types: set<WebsiteDataType>, t: WebsiteDataType)
    requires t != All
    ensures FlagsOver(order, types, AsDeclared) & Value(t) != 0 <==>
      (t != HstsCache && t in types && t in order)
      || (t == Cookies && HstsCache in types && HstsCache in order)
      || (All in types && All in order)
  {
    if order != [] {
      var init := order[..|order| - 1];
      var u := order[|order| - 1];
      var a, b := FlagsOver(init, types, AsDeclared), Contribution(u, types, AsDeclared);
      assert FlagsOver(order, types, AsDeclared) == a | b;
      FlagsOverBitsAsWritten(init, types, t);
      ContributionAsWrittenHasBit(types, t, u);
      OrHasBit(a, b, Value(t));
      InOrder(order, t);
      InOrder(order, HstsCache);
      InOrder(order, All);
    }
  }

  /** As declared, a requested HSTS cache carries the cookies bit and no other. */
  lemma ContributionAsWrittenHasBit(types: set<WebsiteDataType>, t: WebsiteDataType, u: WebsiteDataType)
    requires t != All
    ensures Contribution(u, types, AsDeclared) & Value(t) != 0 <==>
      u in types && ((u == t && t != HstsCache) || (u == HstsCache && t == Cookies) || u == All)
  {
    var w := if u == HstsCache then Cookies else u;
    assert Contribution(u, types, AsDeclared) == if u in types then Value(w) else 0;
    ValuesAreDistinctBits(t, w);
    ValuesAreDistinctBits(w, w);
  }

  lemma {:induction false} FlagsOverNothing(order: seq<WebsiteDataType>, table: Table)
    ensures FlagsOver(order, {}, table) == 0
  {
    if order != [] {
      var a, b := FlagsOver(order[..|order| - 1], {}, table), Contribution(order[|order| - 1], {}, table);
      assert FlagsOver(order, {}, table) == a | b;
      FlagsOverNothing(order[..|order| - 1], table);
      OrZero(a, b);
    }
  }

  lemma OrZero(a: bv32, b: bv32)
    requires a == 0 && b == 0
    ensures a | b == 0
  {
  }

  /** Requesting one kind gives its value, if `order` lists it. */
  lemma {:induction false} FlagsOverOne(order: seq<WebsiteDataType>, t: WebsiteDataType, table: Table)
    ensures t in order ==> FlagsOver(order, {t}, table) == TableValue(table, t)
    ensures t !in order ==> FlagsOver(order, {t}, table) == 0
  {
    if order != [] {
      var init := order[..|order| - 1];
      var u := order[|order| - 1];
      var a, b := FlagsOver(init, {t}, table), Contribution(u, {t}, table);
      assert FlagsOver(order, {t}, table) == a | b;
      FlagsOverOne(init, t, table);
      InOrder(order, t);
      OrSame(a, b, TableValue(table, t));
    }
  }

  lemma OrSame(a: bv32, b: bv32, c: bv32)
    requires a == 0 || a == c
    requires b == 0 || b == c
    ensures a | b == if a == 0 && b == 0 then 0 else c
  {
  }

  /** The flags hold only bits 0 to 13. */
  lemma {:induction false} FlagsOverInRange(order: seq<WebsiteDataType>, types: set<WebsiteDataType>, table: Table)
    ensures FlagsOver(order, types, table) & !0x3fff == 0
  {
    if order != [] {
      var u := order[|order| - 1];
      var a, b := FlagsOver(order[..|order| - 1], types, table), Contribution(u, types, table);
      assert FlagsOver(order, types, table) == a | b;
      FlagsOverInRange(order[..|order| - 1], types, table);
      ContributionInRange(u, types, table);
      OrInRange(a, b);
    }
  }

  lemma ContributionInRange(u: WebsiteDataType, types: set<WebsiteDataType>, table: Table)
    ensures Contribution(u, types, table) & !0x3fff == 0
  {
    if u in types {
      TableValueInRange(table, u);
    }
  }

  lemma TableValueInRange(table: Table, t: WebsiteDataType)
    ensures TableValue(table, t) & !0x3fff == 0
  {
    if table == AsDeclared {
      ValueAsWrittenInRange(t);
    } else {
      ValueInRange(t);
    }
  }

  lemma ValueAsWrittenInRange(t: WebsiteDataType)
    ensures ValueAsWritten(t) & !0x3fff == 0
  {
    ValueInRange(if t == HstsCache then Cookies else t);
  }

  lemma ValueInRange(t: WebsiteDataType)
    ensures Value(t) & !0x3fff == 0
  {
    match t
    case MemoryCache =>
    case DiskCache =>
    case OfflineApplicationCache =>
    case SessionStorage =>
    case LocalStorage =>
    case WebSqlDatabases =>
    case IndexDbDatabases =>
    case PluginData =>
    case Cookies =>
    case DeviceIdHashSalt =>
    case HstsCache =>
    case Itp =>
    case ServiceWorkerRegistrations =>
    case DomCache =>
    case All =>
  }

  lemma OrInRange(a: bv32, b: bv32)
    requires a & !0x3fff == 0 && b & !0x3fff == 0
    ensures (a | b) & !0x3fff == 0
  {
  }

  /** Every kind is declared. */
  lemma AllDeclared(t: WebsiteDataType)
    ensures t in DeclarationOrder
  {
    BitIndexInverse(t);
  }

  /** Over an order that lists every kind, the flags are zero only when nothing was requested. */
  lemma FlagsOverZero(order: seq<WebsiteDataType>, types: set<WebsiteDataType>, table: Table)
    requires forall t :: t in order
    ensures FlagsOver(order, types, table) == 0 <==> types == {}
  {
    if types == {} {
      FlagsOverNothing(order, table);
    } else {
      var t :| t in types;
      var probe := if t == All then MemoryCache else if t == HstsCache && table == AsDeclared then Cookies else t;
      if table == WebKitBits {
        FlagsOverBits(order, types, probe);
      } else {
        FlagsOverBitsAsWritten(order, types, probe);
      }
      ZeroHasNoBit(Value(probe));
    }
  }

  lemma DeclarationOrderComplete()
    ensures forall t :: t in DeclarationOrder
  {
    forall t
      ensures t in DeclarationOrder
    {
      AllDeclared(t);
    }
  }

  /**
   * The flags `clear` is meant to send name exactly the requested kinds (all
   * of them when `All` is requested), and are zero only when nothing was
   * requested.
   */
  lemma ClearFlagsMeaning(types: set<WebsiteDataType>)
    ensures forall t :: t != All ==> (ClearFlags(types) & Value(t) != 0 <==> t in types || All in types)
    ensures ClearFlags(types) == 0 <==> types == {}
  {
    DeclarationOrderComplete();
    forall t | t != All
      ensures ClearFlags(types) & Value(t) != 0 <==> t in types || All in types
    {
      FlagsOverBits(DeclarationOrder, types, t);
    }
    FlagsOverZero(DeclarationOrder, types, WebKitBits);
  }

  /**
   * The flags `clear` sends, with the enum as declared: the cookies bit when
   * cookies or the HSTS cache are requested, the HSTS cache bit only for
   * `All`, every other kind's bit when it is requested; zero only when
   * nothing is requested.
   */
  lemma ClearFlagsAsWrittenMeaning(types: set<WebsiteDataType>)
    ensures forall t :: t != All && t != Cookies && t != HstsCache ==>
      (ClearFlagsAsWritten(types) & Value(t) != 0 <==> t in types || All in types)
    ensures ClearFlagsAsWritten(types) & Value(Cookies) != 0 <==> Cookies in types || HstsCache in types || All in types
    ensures ClearFlagsAsWritten(types) & Value(HstsCache) != 0 <==> All in types
    ensures ClearFlagsAsWritten(types) == 0 <==> types == {}
  {
    DeclarationOrderComplete();
    forall t | t != All
      ensures ClearFlagsAsWritten(types) & Value(t) != 0 <==>
        (t != HstsCache && t in types) || (t == Cookies && HstsCache in types) || All in types
    {
      FlagsOverBitsAsWritten(DeclarationOrder, types, t);
    }
    FlagsOverZero(DeclarationOrder, types, AsDeclared);
  }

  /** Clearing only the HSTS cache sends the cookies bit as written, where WebKit's HSTS bit is 0x400. */
  lemma ClearHstsCacheOnly()
    ensures ClearFlagsAsWritten({HstsCache}) == 0x100
    ensures ClearFlags({HstsCache}) == 0x400
  {
    AllDeclared(HstsCache);
    FlagsOverOne(DeclarationOrder, HstsCache, AsDeclared);
    FlagsOverOne(DeclarationOrder, HstsCache, WebKitBits);
  }

  /** The calls the manager makes on native code. */
  datatype NativeCall = NativeClear(nativePtr: nat, typesToClear: bv32, callback: Option<nat>)

  class WKWebsiteDataManager {
    const nativePtr: nat
    var nativeCalls: seq<NativeCall>

    constructor (nativePtr: nat)
      ensures this.nativePtr == nativePtr && nativeCalls == []
    {
      this.nativePtr := nativePtr;
      nativeCalls := [];
    }

    /**
     * `clear`: native code is asked to clear the OR of the requested kinds'
     * bits as the enum declares them, with a holder for the optional callback;
     * with no kinds requested nothing is called.
     */
    method Clear(websiteDataTypes: set<WebsiteDataType>, callback: Option<nat>)
      modifies this
      ensures websiteDataTypes == {} ==> nativeCalls == old(nativeCalls)
      ensures websiteDataTypes != {} ==> nativeCalls == old(nativeCalls) + [NativeClear(nativePtr, ClearFlagsAsWritten(websiteDataTypes), callback)]
    {
      var flags := ClearFlagsAsWritten(websiteDataTypes);
      ClearFlagsAsWrittenMeaning(websiteDataTypes);
      if flags != 0 {
        nativeCalls := nativeCalls + [NativeClear(nativePtr, flags, callback)];
      }
    }
  }
}
