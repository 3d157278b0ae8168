// Paying with coins and from the bank (removeMoney and addMoney in game.cpp).
module Money {

  import opened Arithmetic
  import opened Inventory
  import opened ItemTypes
  import opened Wrappers

  datatype Coin = Gold | Platinum | Crystal

  const CRYSTAL: nat := 10000

  const COIN_WEIGHT: nat := 10

  function KindOf(coin: Coin): Kind {
    match coin
    case Gold => Kind(2148, true, 0)
    case Platinum => Kind(2152, true, 0)
    case Crystal => Kind(2160, true, 0)
  }

  predicate IsCoin(kind: Kind) { kind.id in {2148, 2152, 2160} }

  // What `count` pieces of a kind are worth
  function Price(kind: Kind, count: nat): nat {
    if kind.id == 2148 then count
    else if kind.id == 2152 then count * 100
    else if kind.id == 2160 then count * 10000
    else 0
  }

  function Unit(kind: Kind): nat
    requires IsCoin(kind)
  {
    if kind.id == 2148 then 1 else if kind.id == 2152 then 100 else CRYSTAL
  }

  // getWorth
  function Value(t: Thing): nat { Price(t.kind, t.count) }

  function Worth(s: seq<Thing>): nat {
    if s == [] then 0 else Value(s[0]) + Worth(s[1..])
  }

  lemma {:induction false} WorthOfConcat(s: seq<Thing>, t: seq<Thing>)
    ensures Worth(s + t) == Worth(s) + Worth(t)
  {
    if s == [] {
      assert s + t == t;
    } else {
      assert (s + t)[1..] == s[1..] + t;
      WorthOfConcat(s[1..], t);
    }
  }

  lemma WorthOfOne(t: Thing)
    ensures Worth([t]) == Value(t)
  {
    assert Worth([t]) == Value(t) + Worth([]);
  }

  // ---------- The coins at hand, in the order of the multimap ----------

  // A stack goes behind all stacks that are worth no more.
  function Emplace(s: seq<Thing>, x: Thing): seq<Thing> {
    if s == [] then [x]
    else if Value(s[0]) <= Value(x) then [s[0]] + Emplace(s[1..], x)
    else [x] + s
  }

  // What is worth nothing is left out.
  function Sorted(s: seq<Thing>): seq<Thing> {
    if s == [] then []
    else
      var last := s[|s| - 1];
      if Value(last) == 0 then Sorted(s[..|s| - 1]) else Emplace(Sorted(s[..|s| - 1]), last)
  }

  predicate Ascending(s: seq<Thing>) {
    forall i, j | 0 <= i < j < |s| :: Value(s[i]) <= Value(s[j])
  }

  predicate DistinctIds(s: seq<Thing>) {
    forall i, j | 0 <= i < j < |s| :: s[i].id != s[j].id
  }

  lemma {:induction false} EmplaceKeeps(s: seq<Thing>, x: Thing)
    ensures Worth(Emplace(s, x)) == Worth(s) + Value(x)
    ensures forall y :: y in Emplace(s, x) <==> y == x || y in s
  {
    if s != [] {
      assert s == [s[0]] + s[1..];
      if Value(s[0]) <= Value(x) {
        EmplaceKeeps(s[1..], x);
        assert ([s[0]] + Emplace(s[1..], x))[1..] == Emplace(s[1..], x);
      } else {
        assert ([x] + s)[1..] == s;
      }
    }
  }

  lemma DistinctFront(y: Thing, s: seq<Thing>)
    requires DistinctIds(s) && forall z | z in s :: z.id != y.id
    ensures DistinctIds([y] + s)
  {
  }

  lemma {:induction false} EmplaceKeepsIds(s: seq<Thing>, x: Thing)
    requires DistinctIds(s) && forall y | y in s :: y.id != x.id
    ensures DistinctIds(Emplace(s, x))
  {
    if s != [] {
      if Value(s[0]) <= Value(x) {
        EmplaceKeepsIds(s[1..], x);
        EmplaceKeeps(s[1..], x);
        forall z | z in Emplace(s[1..], x)
          ensures z.id != s[0].id
        {
          if z in s[1..] {
            var j :| 0 <= j < |s[1..]| && s[1..][j] == z;
            assert s[j + 1] == z;
          }
        }
        DistinctFront(s[0], Emplace(s[1..], x));
      } else {
        DistinctFront(x, s);
      }
    }
  }

  lemma AscendingFront(y: Thing, s: seq<Thing>)
    requires Ascending(s) && forall z | z in s :: Value(z) >= Value(y)
    ensures Ascending([y] + s)
  {
  }

  lemma {:induction false} EmplaceKeepsOrder(s: seq<Thing>, x: Thing)
    requires Ascending(s)
    ensures Ascending(Emplace(s, x))
  {
    if s != [] {
      if Value(s[0]) <= Value(x) {
        EmplaceKeepsOrder(s[1..], x);
        EmplaceKeeps(s[1..], x);
        AscendingFront(s[0], Emplace(s[1..], x));
      } else {
        AscendingFront(x, s);
      }
    }
  }

  lemma {:induction false} SortedKeeps(s: seq<Thing>)
    ensures Ascending(Sorted(s)) && Worth(Sorted(s)) == Worth(s)
    ensures forall x :: x in Sorted(s) <==> x in s && Value(x) > 0
    decreases |s|
  {
    if s != [] {
      var init, last := s[..|s| - 1], s[|s| - 1];
      assert s == init + [last];
      SortedKeeps(init);
      WorthOfConcat(init, [last]);
      WorthOfOne(last);
      if Value(last) > 0 {
        EmplaceKeeps(Sorted(init), last);
        EmplaceKeepsOrder(Sorted(init), last);
      }
    }
  }

  // The stacks that are worth so much, in their order
  function OfWorth(s: seq<Thing>, worth: nat): seq<Thing> {
    if s == [] then [] else (if Value(s[0]) == worth then [s[0]] else []) + OfWorth(s[1..], worth)
  }

  lemma {:induction false} OfWorthConcat(s: seq<Thing>, t: seq<Thing>, worth: nat)
    ensures OfWorth(s + t, worth) == OfWorth(s, worth) + OfWorth(t, worth)
  {
    if s == [] {
      assert s + t == t;
    } else {
      assert (s + t)[1..] == s[1..] + t;
      OfWorthConcat(s[1..], t, worth);
    }
  }

  lemma {:induction false} NoneOfWorth(s: seq<Thing>, worth: nat)
    requires forall x | x in s :: Value(x) != worth
    ensures OfWorth(s, worth) == []
  {
    if s != [] {
      NoneOfWorth(s[1..], worth);
    }
  }

  function IfWorth(x: Thing, worth: nat): seq<Thing> { if Value(x) == worth then [x] else [] }

  lemma OfWorthOne(x: Thing, worth: nat)
    ensures OfWorth([x], worth) == IfWorth(x, worth)
  {
    assert [x][1..] == [];
  }

  lemma OfWorthLast(s: seq<Thing>, worth: nat)
    requires s != []
    ensures OfWorth(s, worth) == OfWorth(s[..|s| - 1], worth) + IfWorth(s[|s| - 1], worth)
  {
    assert s == s[..|s| - 1] + [s[|s| - 1]];
    OfWorthConcat(s[..|s| - 1], [s[|s| - 1]], worth);
    OfWorthOne(s[|s| - 1], worth);
  }

  // A stack comes behind those that are worth the same.
  lemma {:induction false} EmplaceIsBehind(s: seq<Thing>, x: Thing, worth: nat)
    requires Ascending(s)
    ensures OfWorth(Emplace(s, x), worth) == OfWorth(s, worth) + IfWorth(x, worth)
  {
    if s == [] {
      OfWorthOne(x, worth);
    } else if Value(s[0]) <= Value(x) {
      EmplaceIsBehind(s[1..], x, worth);
      assert ([s[0]] + Emplace(s[1..], x))[1..] == Emplace(s[1..], x);
    } else {
      FrontIsOnlyOne(s, x, worth);
    }
  }

  lemma FrontIsOnlyOne(s: seq<Thing>, x: Thing, worth: nat)
    requires Ascending(s) && s != [] && Value(s[0]) > Value(x)
    ensures OfWorth([x] + s, worth) == OfWorth(s, worth) + IfWorth(x, worth)
  {
    assert ([x] + s)[1..] == s;
    if Value(x) == worth {
      NoneOfWorth(s, worth);
    }
  }

  // Stacks worth the same stay in their order, and none is lost or doubled.
  lemma {:induction false} SortedIsStable(s: seq<Thing>, worth: nat)
    requires worth > 0
    ensures OfWorth(Sorted(s), worth) == OfWorth(s, worth)
    decreases |s|
  {
    if s != [] {
      var init, last := s[..|s| - 1], s[|s| - 1];
      SortedIsStable(init, worth);
      SortedKeeps(init);
      OfWorthLast(s, worth);
      if Value(last) > 0 {
        EmplaceIsBehind(Sorted(init), last, worth);
      }
    }
  }

  lemma {:induction false} SortedKeepsIds(s: seq<Thing>)
    requires DistinctIds(s)
    ensures DistinctIds(Sorted(s))
    decreases |s|
  {
    if s != [] {
      var init, last := s[..|s| - 1], s[|s| - 1];
      SortedKeepsIds(init);
      SortedKeeps(init);
      if Value(last) > 0 {
        EmplaceKeepsIds(Sorted(init), last);
      }
    }
  }

  // ---------- Adding money ----------

  const WORD: nat := 65536
  const DOUBLE: nat := 4294967296

  datatype Stack = Stack(coin: Coin, count: nat)

  function Face(s: seq<Stack>): nat {
    if s == [] then 0 else Price(KindOf(s[0].coin), s[0].count) + Face(s[1..])
  }

  lemma {:induction false} FaceOfConcat(s: seq<Stack>, t: seq<Stack>)
    ensures Face(s + t) == Face(s) + Face(t)
  {
    if s == [] {
      assert s + t == t;
    } else {
      assert (s + t)[1..] == s[1..] + t;
      FaceOfConcat(s[1..], t);
    }
  }

  lemma FaceOfOne(s: Stack)
    ensures Face([s]) == Price(KindOf(s.coin), s.count)
  {
    assert Face([s]) == Price(KindOf(s.coin), s.count) + Face([]);
  }

  // The count of a new stack: at least one, and a byte
  function NewCount(count: nat): nat { if count % WORD == 0 then 1 else count % WORD % 256 }

  function CrystalStacks(n: nat): seq<Stack> {
    if n == 0 then []
    else
      var count := if n < 100 then n else 100;
      [Stack(Crystal, NewCount(count))] + CrystalStacks(n - count)
  }

  // What the 32-bit product of the crystal coins leaves of the sum
  function Left(money: nat, crystalCoins: nat): nat
    requires crystalCoins == money / CRYSTAL % DOUBLE
  {
    ProductIsSmaller(money, crystalCoins);
    money - crystalCoins * CRYSTAL % DOUBLE
  }

  lemma ProductIsSmaller(money: nat, crystalCoins: nat)
    requires crystalCoins == money / CRYSTAL % DOUBLE
    ensures crystalCoins * CRYSTAL % DOUBLE <= money
  {
    assert crystalCoins <= money / CRYSTAL;
  }

  // The platinum and gold that addMoney makes of what is left
  function SmallStacks(left: nat): seq<Stack> {
    var platinumCoins := left / 100 % WORD;
    var last := left - platinumCoins * 100;
    (if platinumCoins != 0 then [Stack(Platinum, NewCount(platinumCoins))] else []) +
    (if last != 0 then [Stack(Gold, NewCount(last))] else [])
  }

  // The stacks that addMoney makes, with the widths of its variables
  function Made(money: nat): seq<Stack> {
    var crystalCoins := money / CRYSTAL % DOUBLE;
    CrystalStacks(crystalCoins) + SmallStacks(Left(money, crystalCoins))
  }

  lemma {:induction false} CrystalStacksFace(n: nat)
    ensures Face(CrystalStacks(n)) == CRYSTAL * n
    ensures forall s | s in CrystalStacks(n) :: s.coin == Crystal && 1 <= s.count <= 100
  {
    if n > 0 {
      var count := if n < 100 then n else 100;
      CrystalStacksFace(n - count);
      assert NewCount(count) == count;
      assert CrystalStacks(n)[1..] == CrystalStacks(n - count);
    }
  }

  lemma SmallStacksFace(left: nat)
    ensures var platinumCoins := left / 100 % WORD;
      var last := left - platinumCoins * 100;
      Face(SmallStacks(left)) ==
      (if platinumCoins != 0 then NewCount(platinumCoins) * 100 else 0) + (if last != 0 then NewCount(last) else 0)
  {
    var platinumCoins := left / 100 % WORD;
    var last := left - platinumCoins * 100;
    var b := if platinumCoins != 0 then [Stack(Platinum, NewCount(platinumCoins))] else [];
    var c := if last != 0 then [Stack(Gold, NewCount(last))] else [];
    FaceOfConcat(b, c);
    FaceOfOne(Stack(Platinum, NewCount(platinumCoins)));
    FaceOfOne(Stack(Gold, NewCount(last)));
  }

  lemma SmallCounts(left: nat)
    requires left < CRYSTAL
    ensures left / 100 % WORD == left / 100 < 100 && left - left / 100 * 100 == left % 100
    ensures left / 100 > 0 ==> NewCount(left / 100) == left / 100
    ensures left % 100 > 0 ==> NewCount(left % 100) == left % 100
  {
  }

  // Less than a crystal coin comes in proper stacks of platinum and gold.
  lemma SmallChange(left: nat)
    requires left < CRYSTAL
    ensures Face(SmallStacks(left)) == left
    ensures forall s | s in SmallStacks(left) ::
      1 <= s.count <= 99 && s.coin != Crystal && (left < 100 ==> s.coin == Gold)
  {
    SmallStacksFace(left);
    SmallCounts(left);
  }

  lemma ProductFits(money: nat)
    requires money < 4294970000
    ensures money / CRYSTAL % DOUBLE == money / CRYSTAL && Left(money, money / CRYSTAL) == money % CRYSTAL
  {
    var crystalCoins := money / CRYSTAL;
    assert crystalCoins <= 429496 && crystalCoins * CRYSTAL < DOUBLE;
  }

  // Up to the sum whose crystal coins no longer fit the 32-bit product, addMoney makes
  // coins worth exactly the sum, in proper stacks.
  lemma MadeIsExact(money: nat)
    requires money < 4294970000
    ensures Face(Made(money)) == money && forall s | s in Made(money) :: 1 <= s.count <= 100
  {
    var crystalCoins, left := money / CRYSTAL, money % CRYSTAL;
    ProductFits(money);
    CrystalStacksFace(crystalCoins);
    SmallChange(left);
    FaceOfConcat(CrystalStacks(crystalCoins), SmallStacks(left));
  }

  // ---------- Sums that are made out wrong ----------

  // How often the 32-bit product of the crystal coins has wrapped around
  function Wraps(money: nat): nat { money / CRYSTAL * CRYSTAL / DOUBLE }

  // Below this the number of crystal coins itself fits 32 bits.
  const COUNTABLE: nat := 42949672960000

  lemma MadeFace(money: nat)
    requires money < COUNTABLE
    ensures Face(Made(money)) == money - money % CRYSTAL + Face(SmallStacks(money % CRYSTAL + Wraps(money) * DOUBLE))
  {
    var crystalCoins := money / CRYSTAL;
    assert crystalCoins % DOUBLE == crystalCoins;
    CrystalStacksFace(crystalCoins);
    FaceOfConcat(CrystalStacks(crystalCoins), SmallStacks(Left(money, crystalCoins)));
  }

  lemma MultipleOf25(k: nat, q: int)
    requires 4194304 * k == 25 * q
    ensures k % 25 == 0
  {
    var x := q - 167772 * k; // 4 * k == 25 * x
    assert k == 25 * (19 * x - 3 * k);
  }

  lemma ByteOfWord(n: nat)
    ensures n % WORD % 256 == n % 256
  {
    DivMod(n, 256, n / WORD * 256 + n % WORD / 256, n % WORD % 256);
  }

  // What a byte of platinum and a byte of gold can make up for
  lemma BytesMakeUp(r: nat, k: nat, b: nat)
    requires b <= 255 && r == 100 * ((r + k * DOUBLE) / 100 % 256) + b
    ensures k % 25 == 0
  {
    var left := r + k * DOUBLE;
    var n := left / 100;
    var q := n / 256;
    assert n == 256 * q + n % 256 && left == 100 * n + left % 100;
    MultipleOf1024(k * 4194304 - 25 * q, left % 100 - b);
    MultipleOf25(k, q);
  }

  function LastByte(left: nat): nat {
    var last := left - left / 100 % WORD * 100;
    if last != 0 then NewCount(last) else 0
  }

  lemma SmallStacksBytes(left: nat)
    ensures Face(SmallStacks(left)) == 100 * (left / 100 % 256) + LastByte(left) && LastByte(left) <= 255
  {
    SmallStacksFace(left);
    ByteOfWord(left / 100);
  }

  // A byte of platinum and a byte of gold make up for the wraps only if they are a multiple of 25.
  lemma WrapsOutOfReach(r: nat, k: nat)
    requires r < CRYSTAL && Face(SmallStacks(r + k * DOUBLE)) == r
    ensures k % 25 == 0
  {
    SmallStacksBytes(r + k * DOUBLE);
    BytesMakeUp(r, k, LastByte(r + k * DOUBLE));
  }

  lemma MultipleOf1024(x: int, d: int)
    requires 1024 * x == d && -1024 < d < 1024
    ensures x == 0
  {
  }

  // With a multiple of 25 wraps the platinum comes out right, and the gold if there is any.
  lemma WrapsMadeUp(r: nat, m: nat)
    requires r < CRYSTAL && m > 0
    ensures Face(SmallStacks(r + 25 * m * DOUBLE)) == r - r % 100 + if r % 100 == 0 then 1 else r % 100
  {
    var left := r + 25 * m * DOUBLE;
    var h, g := r / 100, r % 100;
    WholeWraps(r, m);
    SmallStacksFace(left);
    assert NewCount(h) == if h == 0 then 1 else h;
    assert NewCount(left - 100 * h) == if g == 0 then 1 else g;
  }

  lemma WholeWraps(r: nat, m: nat)
    requires r < CRYSTAL && m > 0
    ensures var left := r + 25 * m * DOUBLE;
      left / 100 % WORD == r / 100 && (left - 100 * (r / 100)) % WORD == r % 100 && left > 100 * (r / 100)
  {
    var left := r + 25 * m * DOUBLE;
    var h, g := r / 100, r % 100;
    assert left == 100 * (h + m * 1073741824) + g;
    DivMod(left, 100, h + m * 1073741824, g);
    DivMod(h + m * 1073741824, WORD, m * 16384, h);
    DivMod(left - 100 * h, WORD, 100 * m * 16384, g);
  }

  // Past what 32 bits can count, coins are missing.
  lemma TooManyToCount(money: nat)
    requires money >= COUNTABLE
    ensures Face(Made(money)) < money
  {
    var crystalCoins := money / CRYSTAL % DOUBLE;
    var small := SmallStacks(Left(money, crystalCoins));
    CrystalStacksFace(crystalCoins);
    FaceOfConcat(CrystalStacks(crystalCoins), small);
    SmallStacksFace(Left(money, crystalCoins));
    assert crystalCoins < DOUBLE <= money / CRYSTAL && money / CRYSTAL >= crystalCoins + DOUBLE;
  }

  lemma WrapsIs(money: nat)
    ensures 4294970000 <= money ==> Wraps(money) > 0
    ensures money < 107374190000 ==> Wraps(money) < 25
    ensures money % CRYSTAL % 100 == money % 100
  {
    DivMod(money, 100, money / CRYSTAL * 100 + money % CRYSTAL / 100, money % CRYSTAL % 100);
  }

  lemma MadeBetween(money: nat)
    requires 4294970000 <= money < COUNTABLE
    ensures Face(Made(money)) == money <==> Wraps(money) % 25 == 0 && money % 100 != 0
  {
    var r, k := money % CRYSTAL, Wraps(money);
    MadeFace(money);
    WrapsIs(money);
    if k % 25 == 0 {
      assert k == 25 * (k / 25);
      WrapsMadeUp(r, k / 25);
    } else if Face(SmallStacks(r + k * DOUBLE)) == r {
      WrapsOutOfReach(r, k);
    }
  }

  // addMoney makes out a sum right exactly if the product of its crystal coins does not
  // wrap around, or, as long as they can be counted, wraps around a multiple of 25 times
  // and there is some gold.
  lemma MadeExactly(money: nat)
    ensures Face(Made(money)) == money <==>
      money < 4294970000 || (money < COUNTABLE && Wraps(money) % 25 == 0 && money % 100 != 0)
  {
    if money < 4294970000 {
      MadeIsExact(money);
    } else if money < COUNTABLE {
      MadeBetween(money);
    } else {
      TooManyToCount(money);
    }
  }

  lemma OneWrap(left: nat)
    requires left == DOUBLE
    ensures Face(SmallStacks(left)) == 4096
  {
    DivMod(left, 100, 42949672, 96);
    DivMod(left / 100, WORD, 655, 23592);
    DivMod(left - 2359200, WORD, 65500, 96);
    SmallStacksFace(left);
    assert NewCount(23592) == 40 && NewCount(left - 2359200) == 96;
  }

  // The first sum that is made out wrong gets 4096 too much.
  lemma MadeWrong(money: nat)
    requires money == 4294970000
    ensures Face(Made(money)) == money + 4096
  {
    MadeFace(money);
    OneWrap(DOUBLE);
  }

  // From there on none is made out right before 107374190001.
  lemma WrongUntil(money: nat)
    requires 4294970000 <= money < 107374190001
    ensures Face(Made(money)) != money
  {
    MadeBetween(money);
    WrapsIs(money);
  }

  lemma RightAgain(money: nat)
    requires money == 107374190001
    ensures Face(Made(money)) == money
  {
    assert Wraps(money) == 25;
    MadeBetween(money);
  }

  // ---------- The purse ----------

  // What the player carries, the worth of what has landed on the tile, the bank, and, as
  // history, the worth of coins that are nowhere any more
  datatype Funds = Funds(carrier: Carrier, ground: nat, bank: nat, lost: nat)

  function Total(f: Funds): nat { Worth(f.carrier.things) + f.ground + f.bank }

  // The player's rules and offer in a trade
  datatype Holder = Holder(rules: Rules, trade: Option<nat>)

  function NewId(s: seq<Thing>): (id: nat)
    ensures forall t | t in s :: t.id < id
  {
    if s == [] then 0
    else
      var id := NewId(s[1..]);
      assert forall t | t in s :: t == s[0] || t in s[1..];
      if s[0].id < id then id else s[0].id + 1
  }

  function NewThing(s: seq<Thing>, stack: Stack): Thing {
    Thing(NewId(s), KindOf(stack.coin), stack.count, COIN_WEIGHT, Slot(0), {})
  }

  // A stack goes to the player, or to the tile if it is refused.
  function PlacedOne(f: Funds, h: Holder, stack: Stack): Funds {
    var kind := KindOf(stack.coin);
    match Add(f.carrier, h.rules, h.trade, NewThing(f.carrier.things, stack))
    case Refused => f.(ground := f.ground + Price(kind, stack.count))
    case Added(c, lost) => f.(carrier := c, lost := f.lost + Price(kind, lost))
  }

  function Placed(f: Funds, h: Holder, made: seq<Stack>): Funds
    decreases |made|
  {
    if made == [] then f else Placed(PlacedOne(f, h, made[0]), h, made[1..])
  }

  // addMoney
  function MoneyAdded(f: Funds, h: Holder, money: nat): Funds { Placed(f, h, Made(money)) }

  predicate IsGold(kind: Kind) { kind.id == 2148 }
  predicate IsPlatinum(kind: Kind) { kind.id == 2152 }
  predicate IsCrystal(kind: Kind) { kind.id == 2160 }

  lemma {:induction false} WorthOfAmounts(s: seq<Thing>)
    ensures Worth(s) == Amount(s, IsGold) + 100 * Amount(s, IsPlatinum) + CRYSTAL * Amount(s, IsCrystal)
  {
    if s != [] {
      WorthOfAmounts(s[1..]);
    }
  }

  lemma PriceAdds(kind: Kind, a: nat, b: nat)
    ensures Price(kind, a + b) == Price(kind, a) + Price(kind, b)
  {
  }

  // What is added is carried or lost.
  lemma AddWorth(c: Carrier, rules: Rules, trade: Option<nat>, item: Thing)
    ensures var r := Add(c, rules, trade, item);
      r.Added? ==>
        r.lost <= item.count && Worth(r.carrier.things) + Price(item.kind, r.lost) == Worth(c.things) + Value(item)
  {
    var doing := AddDoes(c, rules, trade, item);
    var r := Done(c, item, doing);
    DoneCounts(c, item, doing, IsGold);
    DoneCounts(c, item, doing, IsPlatinum);
    DoneCounts(c, item, doing, IsCrystal);
    WorthOfAmounts(c.things);
    if r.Added? {
      WorthOfAmounts(r.carrier.things);
    }
  }

  lemma PlacedOneTotal(f: Funds, h: Holder, stack: Stack)
    ensures var g := PlacedOne(f, h, stack);
      Total(g) + g.lost == Total(f) + f.lost + Price(KindOf(stack.coin), stack.count) &&
      g.bank == f.bank && g.lost >= f.lost
  {
    AddWorth(f.carrier, h.rules, h.trade, NewThing(f.carrier.things, stack));
  }

  lemma {:induction false} PlacedTotal(f: Funds, h: Holder, made: seq<Stack>)
    ensures var g := Placed(f, h, made);
      Total(g) + g.lost == Total(f) + f.lost + Face(made) && g.bank == f.bank && g.lost >= f.lost
    decreases |made|
  {
    if made != [] {
      PlacedOneTotal(f, h, made[0]);
      PlacedTotal(PlacedOne(f, h, made[0]), h, made[1..]);
    }
  }

  // Whatever addMoney makes is with the player, on the tile, or lost.
  lemma AddedOrLost(f: Funds, h: Holder, money: nat)
    requires money < 4294970000
    ensures var g := MoneyAdded(f, h, money);
      Total(g) + (g.lost - f.lost) == Total(f) + money && g.bank == f.bank && g.lost >= f.lost
  {
    MadeIsExact(money);
    PlacedTotal(f, h, Made(money));
  }

  // ---------- When coins are lost ----------

  predicate CoinsWeigh(s: seq<Thing>) {
    forall t | t in s && IsCoin(t.kind) :: t.weight == COIN_WEIGHT && t.kind.stackable
  }

  // Rules do not look at counts, no two pockets are one place, and all coins weigh the same.
  ghost predicate Ordinary(c: Carrier, h: Holder) {
    IgnoreCounts(h.rules) && DistinctPlaces(c.pockets) && CoinsWeigh(c.things)
  }

  lemma GrownWeighs(c: Carrier, k: nat, n: nat)
    requires CoinsWeigh(c.things) && k < |c.things|
    ensures CoinsWeigh(Grown(c, k, n).things)
  {
    forall t | t in Grown(c, k, n).things && IsCoin(t.kind)
      ensures t.weight == COIN_WEIGHT && t.kind.stackable
    {
      assert t in c.things || (c.things[k] in c.things && t == Grown(c, k, n).things[k]);
    }
  }

  lemma {:induction false} DoneWeighs(c: Carrier, item: Thing, doing: Doing)
    requires CanDo(c, item, doing)
    requires CoinsWeigh(c.things) && IsCoin(item.kind) && item.kind.stackable && item.weight == COIN_WEIGHT
    ensures var r := Done(c, item, doing);
      r.Added? ==> CoinsWeigh(r.carrier.things) && r.carrier.pockets == c.pockets
    decreases doing
  {
    match doing
    case Refuse =>
    case InFront(p) =>
    case Onto(k, m, n, rest) =>
      GrownWeighs(c, k, n);
      if m != n {
        DoneWeighs(Grown(c, k, n), item.(count := m - n), rest);
      }
  }

  lemma StillOrdinary(f: Funds, h: Holder, stack: Stack)
    requires Ordinary(f.carrier, h)
    ensures Ordinary(PlacedOne(f, h, stack).carrier, h)
  {
    var item := NewThing(f.carrier.things, stack);
    var doing := AddDoes(f.carrier, h.rules, h.trade, item);
    DoneWeighs(f.carrier, item, doing);
  }

  // How many coins of a new stack are lost
  function LostCoins(f: Funds, h: Holder, stack: Stack): nat {
    var item := NewThing(f.carrier.things, stack);
    var loss := LossIn(f.carrier, h.rules, h.trade, item);
    if Bears(f.carrier, item, item.count) && loss.Some? then loss.value else 0
  }

  lemma PlacedOneLost(f: Funds, h: Holder, stack: Stack)
    requires Ordinary(f.carrier, h)
    ensures PlacedOne(f, h, stack).lost == f.lost + Price(KindOf(stack.coin), LostCoins(f, h, stack))
    ensures LostCoins(f, h, stack) > 0 <==> Loses(f.carrier, h.rules, h.trade, NewThing(f.carrier.things, stack))
  {
    var item := NewThing(f.carrier.things, stack);
    AddExactly(f.carrier, h.rules, h.trade, item);
    LostExactly(f.carrier, h.rules, h.trade, item);
  }

  // Some stack, when its turn comes, loses coins.
  predicate SomeLoses(f: Funds, h: Holder, made: seq<Stack>)
    decreases |made|
  {
    made != [] &&
    (Loses(f.carrier, h.rules, h.trade, NewThing(f.carrier.things, made[0])) ||
     SomeLoses(PlacedOne(f, h, made[0]), h, made[1..]))
  }

  lemma {:induction false} PlacedLost(f: Funds, h: Holder, made: seq<Stack>)
    requires Ordinary(f.carrier, h)
    ensures Placed(f, h, made).lost == f.lost <==> !SomeLoses(f, h, made)
    decreases |made|
  {
    if made != [] {
      var g := PlacedOne(f, h, made[0]);
      PlacedOneLost(f, h, made[0]);
      StillOrdinary(f, h, made[0]);
      PlacedTotal(g, h, made[1..]);
      PlacedLost(g, h, made[1..]);
    }
  }

  // addMoney adds exactly the sum if and only if no stack that it makes loses coins.
  lemma AddedExactly(f: Funds, h: Holder, money: nat)
    requires money < 4294970000 && Ordinary(f.carrier, h)
    ensures Total(MoneyAdded(f, h, money)) == Total(f) + money <==> !SomeLoses(f, h, Made(money))
  {
    AddedOrLost(f, h, money);
    PlacedLost(f, h, Made(money));
  }

  // ---------- Paying with coins ----------

  // So many pieces of one item are removed (internalRemoveItem); an empty stack is gone.
  function TakeFrom(s: seq<Thing>, id: nat, n: nat): seq<Thing> {
    if s == [] then []
    else if s[0].id == id then (if s[0].count <= n then [] else [s[0].(count := s[0].count - n)]) + s[1..]
    else [s[0]] + TakeFrom(s[1..], id, n)
  }

  function TakeAll(s: seq<Thing>, q: seq<Thing>): seq<Thing>
    decreases |q|
  {
    if q == [] then s else TakeAll(TakeFrom(s, q[0].id, q[0].count), q[1..])
  }

  function WithThings(f: Funds, s: seq<Thing>): Funds { f.(carrier := f.carrier.(things := s)) }

  // How many stacks, from the least on, are worth less than what is still to be paid
  function Taken(q: seq<Thing>, money: nat): (k: nat)
    ensures k <= |q|
  {
    if q == [] || Value(q[0]) >= money then 0 else 1 + Taken(q[1..], money - Value(q[0]))
  }

  lemma {:induction false} TakenExactly(q: seq<Thing>, money: nat)
    requires money > 0
    ensures var k := Taken(q, money);
      Worth(q[..k]) < money && (k < |q| ==> money <= Worth(q[..k]) + Value(q[k])) &&
      (k < |q| <==> Worth(q) >= money)
  {
    if q != [] {
      var k := Taken(q, money);
      if Value(q[0]) < money {
        TakenExactly(q[1..], money - Value(q[0]));
        assert q[..k] == [q[0]] + q[1..][..k - 1];
        assert q[..k][1..] == q[1..][..k - 1];
      }
    }
  }

  // How many coins of the stack cover the sum
  function Ceiling(money: nat, unit: nat): nat
    requires unit > 0
  {
    (money + unit - 1) / unit
  }

  function Needed(t: Thing, money: nat): (n: nat)
    requires 0 < money <= Value(t) && IsCoin(t.kind)
    ensures 1 <= n <= t.count && money <= Price(t.kind, n) < money + Unit(t.kind)
    ensures money == Value(t) ==> n == t.count
  {
    Ceiling(money, Unit(t.kind))
  }

  // The funds, and what `money` holds when the loop ends: the sum still missing, or, if the
  // coins were enough, the sum that the last stack was taken for
  datatype Payment = Payment(funds: Funds, money: nat)

  predicate AllCoins(q: seq<Thing>) { forall t | t in q :: IsCoin(t.kind) && t.kind.stackable }

  predicate Covers(e: Thing, left: nat) { 0 < left <= Value(e) && IsCoin(e.kind) }

  function ChangeFor(e: Thing, left: nat): nat
    requires Covers(e, left)
  {
    Price(e.kind, Needed(e, left)) - left
  }

  // The change is added, and then as few coins as will do are taken from the stack.
  function PaidFrom(g: Funds, h: Holder, e: Thing, left: nat): Funds
    requires Covers(e, left)
  {
    var v := MoneyAdded(g, h, ChangeFor(e, left));
    WithThings(v, TakeFrom(v.carrier.things, e.id, Needed(e, left)))
  }

  // What is still to be paid once the small stacks are taken
  function Owed(q: seq<Thing>, money: nat): (left: nat)
    requires money > 0 && AllCoins(q)
    ensures 0 < left <= money && left == money - Worth(q[..Taken(q, money)])
    ensures Taken(q, money) < |q| ==> Covers(q[Taken(q, money)], left)
  {
    TakenExactly(q, money);
    assert Taken(q, money) < |q| ==> q[Taken(q, money)] in q;
    money - Worth(q[..Taken(q, money)])
  }

  // The funds without the small stacks
  function Before(f: Funds, q: seq<Thing>, money: nat): Funds {
    WithThings(f, TakeAll(f.carrier.things, q[..Taken(q, money)]))
  }

  // The change that is given
  function Change(q: seq<Thing>, money: nat): nat
    requires money > 0 && AllCoins(q)
  {
    if Taken(q, money) == |q| then 0 else ChangeFor(q[Taken(q, money)], Owed(q, money))
  }

  // Small stacks go first and as wholes; from the one that covers the rest as few coins as
  // will do are taken, once the change has been added.
  function Pay(f: Funds, h: Holder, q: seq<Thing>, money: nat): Payment
    requires money > 0 && AllCoins(q)
  {
    var g, left := Before(f, q, money), Owed(q, money);
    Payment(if Taken(q, money) == |q| then g else PaidFrom(g, h, q[Taken(q, money)], left), left)
  }

  // The items on the list are there.
  predicate Listed(s: seq<Thing>, q: seq<Thing>) {
    DistinctIds(s) && DistinctIds(q) && AllCoins(q) && forall t | t in q :: t in s
  }

  lemma HeadHasId(s: seq<Thing>, t: Thing)
    requires DistinctIds(s) && t in s && s[0].id == t.id
    ensures s[0] == t
  {
    var j :| 0 <= j < |s| && s[j] == t;
  }

  lemma {:induction false} TakeFromWorth(s: seq<Thing>, t: Thing, n: nat)
    requires DistinctIds(s) && t in s && n <= t.count
    ensures Worth(TakeFrom(s, t.id, n)) == Worth(s) - Price(t.kind, n)
  {
    if s[0].id == t.id {
      HeadHasId(s, t);
      var first := if t.count <= n then [] else [t.(count := t.count - n)];
      WorthOfConcat(first, s[1..]);
      WorthOfOne(t.(count := t.count - n));
      PriceAdds(t.kind, n, t.count - n);
    } else {
      TakeFromWorth(s[1..], t, n);
      assert ([s[0]] + TakeFrom(s[1..], t.id, n))[1..] == TakeFrom(s[1..], t.id, n);
    }
  }

  // Nothing else is touched, and no id is new.
  lemma {:induction false} TakeFromIs(s: seq<Thing>, id: nat, n: nat)
    requires DistinctIds(s)
    ensures forall u | u in s && u.id != id :: u in TakeFrom(s, id, n)
    ensures forall u | u in TakeFrom(s, id, n) :: (u in s && u.id != id) || u.id == id
    ensures DistinctIds(TakeFrom(s, id, n))
  {
    if s != [] {
      assert s == [s[0]] + s[1..];
      DistinctRest(s);
      if s[0].id != id {
        TakeFromIs(s[1..], id, n);
        DistinctFront(s[0], TakeFrom(s[1..], id, n));
      } else if s[0].count > n {
        DistinctFront(s[0].(count := s[0].count - n), s[1..]);
      }
    }
  }

  lemma DistinctRest(s: seq<Thing>)
    requires DistinctIds(s) && s != []
    ensures DistinctIds(s[1..]) && forall u | u in s[1..] :: u.id != s[0].id
  {
  }

  // Once the first is taken the others are still there.
  lemma NextListed(s: seq<Thing>, q: seq<Thing>, r: seq<Thing>)
    requires Listed(s, q + r) && q != []
    ensures q[0] in s && Listed(TakeFrom(s, q[0].id, q[0].count), q[1..] + r)
  {
    var e := q[0];
    assert (q + r)[0] == e && q + r == [e] + (q[1..] + r) && e in q + r;
    TakeFromIs(s, e.id, e.count);
    forall t | t in q[1..] + r
      ensures t in TakeFrom(s, e.id, e.count) && t in q + r
    {
      var j :| 0 <= j < |q[1..] + r| && (q[1..] + r)[j] == t;
      assert (q + r)[j + 1] == t;
    }
    forall i, j | 0 <= i < j < |q[1..] + r|
      ensures (q[1..] + r)[i].id != (q[1..] + r)[j].id
    {
      assert (q + r)[i + 1] == (q[1..] + r)[i] && (q + r)[j + 1] == (q[1..] + r)[j];
    }
  }

  lemma {:induction false} TakeAllIs(s: seq<Thing>, q: seq<Thing>, r: seq<Thing>)
    requires Listed(s, q + r)
    ensures Worth(TakeAll(s, q)) == Worth(s) - Worth(q) && Listed(TakeAll(s, q), r)
    decreases |q|
  {
    if q == [] {
      assert q + r == r;
    } else {
      NextListed(s, q, r);
      TakeFromWorth(s, q[0], q[0].count);
      TakeAllIs(TakeFrom(s, q[0].id, q[0].count), q[1..], r);
    }
  }

  // Items of another kind are left alone by an addition.
  lemma {:induction false} DoneKeepsOthers(c: Carrier, item: Thing, doing: Doing, e: Thing)
    requires CanDo(c, item, doing) && DistinctIds(c.things) && e in c.things && e.kind != item.kind
    requires forall t | t in c.things :: t.id != item.id
    ensures var r := Done(c, item, doing);
      r.Added? ==> e in r.carrier.things && DistinctIds(r.carrier.things)
    decreases doing
  {
    match doing
    case Refuse =>
    case InFront(p) => DistinctFront(item.(place := p.place, around := p.around), c.things);
    case Onto(k, m, n, rest) =>
      GrownKeepsOthers(c, k, n, e, item.id);
      if m != n {
        DoneKeepsOthers(Grown(c, k, n), item.(count := m - n), rest, e);
      }
  }

  lemma GrownKeepsOthers(c: Carrier, k: nat, n: nat, e: Thing, id: nat)
    requires DistinctIds(c.things) && k < |c.things| && e in c.things && e.kind != c.things[k].kind
    requires forall t | t in c.things :: t.id != id
    ensures e in Grown(c, k, n).things && DistinctIds(Grown(c, k, n).things)
    ensures forall t | t in Grown(c, k, n).things :: t.id != id
  {
    var v := Grown(c, k, n).things;
    var j :| 0 <= j < |c.things| && c.things[j] == e;
    assert v[j] == e;
    forall t | t in v
      ensures t.id != id
    {
      assert c.things[k] in c.things;
    }
  }

  lemma {:induction false} PlacedKeepsOthers(f: Funds, h: Holder, made: seq<Stack>, e: Thing)
    requires DistinctIds(f.carrier.things) && e in f.carrier.things
    requires forall s | s in made :: e.kind != KindOf(s.coin)
    ensures e in Placed(f, h, made).carrier.things && DistinctIds(Placed(f, h, made).carrier.things)
    decreases |made|
  {
    if made != [] {
      assert made[0] in made && forall s | s in made[1..] :: s in made;
      var item := NewThing(f.carrier.things, made[0]);
      var doing := AddDoes(f.carrier, h.rules, h.trade, item);
      DoneKeepsOthers(f.carrier, item, doing, e);
      PlacedKeepsOthers(PlacedOne(f, h, made[0]), h, made[1..], e);
    }
  }

  lemma ChangeIsSmall(change: nat)
    requires change < CRYSTAL
    ensures Made(change) == SmallStacks(change)
  {
    assert change / CRYSTAL == 0 && Left(change, 0) == change;
    assert CrystalStacks(0) == [];
    assert Made(change) == [] + SmallStacks(change) == SmallStacks(change);
  }

  // Change is less than a coin of the stack that it is given for, and so of other coins.
  lemma ChangeIsOther(e: Thing, change: nat)
    requires IsCoin(e.kind) && change < Unit(e.kind)
    ensures forall s | s in Made(change) :: e.kind != KindOf(s.coin) && 1 <= s.count <= 99
    ensures Face(Made(change)) == change && Made(change) == SmallStacks(change)
  {
    ChangeIsSmall(change);
    SmallChange(change);
    if change == 0 {
      NothingMade();
    }
  }

  lemma NothingMade()
    ensures Made(0) == []
  {
  }

  // The stack is still there once the change has been added.
  lemma ChangeLeavesStack(g: Funds, h: Holder, e: Thing, change: nat)
    requires IsCoin(e.kind) && DistinctIds(g.carrier.things) && e in g.carrier.things && change < Unit(e.kind)
    ensures var v := MoneyAdded(g, h, change);
      e in v.carrier.things && DistinctIds(v.carrier.things) && v.bank == g.bank && v.lost >= g.lost &&
      Total(v) + v.lost == Total(g) + g.lost + change
  {
    ChangeIsOther(e, change);
    PlacedKeepsOthers(g, h, Made(change), e);
    PlacedTotal(g, h, Made(change));
  }

  lemma PaidFromIs(g: Funds, h: Holder, e: Thing, left: nat)
    requires Covers(e, left) && DistinctIds(g.carrier.things) && e in g.carrier.things
    ensures var u := PaidFrom(g, h, e, left);
      Total(u) + (u.lost - g.lost) == Total(g) - left && u.lost >= g.lost && u.bank == g.bank &&
      u.lost == MoneyAdded(g, h, ChangeFor(e, left)).lost
  {
    ChangeLeavesStack(g, h, e, ChangeFor(e, left));
    TakeFromWorth(MoneyAdded(g, h, ChangeFor(e, left)).carrier.things, e, Needed(e, left));
  }

  // If the coins are worth the sum, they go down by the sum, but for change that is lost.
  lemma PayEnough(f: Funds, h: Holder, q: seq<Thing>, money: nat)
    requires money > 0 && Listed(f.carrier.things, q) && Worth(q) >= money
    ensures var p := Pay(f, h, q, money);
      p.funds.bank == f.bank && p.funds.lost >= f.lost &&
      p.funds.lost == MoneyAdded(Before(f, q, money), h, Change(q, money)).lost &&
      Total(p.funds) + (p.funds.lost - f.lost) == Total(f) - money
  {
    var k := Taken(q, money);
    TakenExactly(q, money);
    assert q == q[..k] + q[k..];
    TakeAllIs(f.carrier.things, q[..k], q[k..]);
    assert q[k] == q[k..][0] && q[k] in q[k..];
    PaidFromIs(Before(f, q, money), h, q[k], Owed(q, money));
  }

  // Otherwise all are taken, and what is missing is what they fall short by.
  lemma PayShort(f: Funds, h: Holder, q: seq<Thing>, money: nat)
    requires money > 0 && Listed(f.carrier.things, q) && Worth(q) < money
    ensures var p := Pay(f, h, q, money);
      p.funds == WithThings(f, TakeAll(f.carrier.things, q)) && Total(p.funds) == Total(f) - Worth(q) &&
      p.money == money - Worth(q)
  {
    TakenExactly(q, money);
    assert q[..|q|] == q && q + [] == q;
    TakeAllIs(f.carrier.things, q, []);
  }

  lemma PayIsExact(f: Funds, h: Holder, q: seq<Thing>, money: nat)
    requires money > 0 && Listed(f.carrier.things, q)
    ensures var p := Pay(f, h, q, money);
      p.funds.bank == f.bank && p.funds.lost >= f.lost &&
      if Worth(q) >= money then
        p.funds.lost == MoneyAdded(Before(f, q, money), h, Change(q, money)).lost &&
        Total(p.funds) + (p.funds.lost - f.lost) == Total(f) - money
      else
        p.funds == WithThings(f, TakeAll(f.carrier.things, q)) && Total(p.funds) == Total(f) - Worth(q) &&
        p.money == money - Worth(q)
  {
    if Worth(q) >= money {
      PayEnough(f, h, q, money);
    } else {
      PayShort(f, h, q, money);
    }
  }

  // ---------- Change is never lost ----------

  // Every coin stack holds between one and a hundred; no two items share an id.
  predicate Proper(s: seq<Thing>) {
    DistinctIds(s) && forall t | t in s && IsCoin(t.kind) :: t.kind.stackable && 1 <= t.count <= STACK
  }

  function Queue(s: seq<Thing>): (q: seq<Thing>)
    requires Proper(s)
    ensures Listed(s, q) && Ascending(q) && Worth(q) == Worth(s)
    ensures forall t | t in s && IsCoin(t.kind) :: t in q
  {
    SortedKeeps(s);
    SortedKeepsIds(s);
    Sorted(s)
  }

  lemma TakeWhole(s: seq<Thing>, t: Thing, u: Thing)
    requires DistinctIds(s) && t in s && u in TakeFrom(s, t.id, t.count)
    ensures u in s && u.id != t.id
  {
    if s[0].id == t.id {
      HeadHasId(s, t);
      assert s == [s[0]] + s[1..];
    } else if u != s[0] {
      TakeWhole(s[1..], t, u);
    }
  }

  // What is left was there before, and is none of what was taken.
  lemma {:induction false} TakeAllLeaves(s: seq<Thing>, q: seq<Thing>, r: seq<Thing>, u: Thing)
    requires Listed(s, q + r) && u in TakeAll(s, q)
    ensures u in s && forall t | t in q :: t.id != u.id
    decreases |q|
  {
    if q != [] {
      var e := q[0];
      var v := TakeFrom(s, e.id, e.count);
      NextListed(s, q, r);
      TakeAllLeaves(v, q[1..], r, u);
      TakeWhole(s, e, u);
    }
  }

  // No stack of the kind can be completed.
  predicate NoneUnfinished(s: seq<Thing>, kind: Kind) {
    forall j | 0 <= j < |s| && s[j].kind == kind :: s[j].count >= STACK
  }

  lemma NothingLost(c: Carrier, rules: Rules, trade: Option<nat>, item: Thing)
    requires NoneUnfinished(c.things, item.kind)
    ensures var r := Add(c, rules, trade, item);
      r.Added? ==> r.lost == 0 && exists p :: r.carrier == Put(c, item, p)
  {
    SpotIsReal(c, rules, trade, item, true, 0);
  }

  lemma PlacedOneLoses(f: Funds, h: Holder, stack: Stack, other: Kind)
    requires NoneUnfinished(f.carrier.things, KindOf(stack.coin))
    ensures PlacedOne(f, h, stack).lost == f.lost
    ensures NoneUnfinished(f.carrier.things, other) && other != KindOf(stack.coin) ==>
      NoneUnfinished(PlacedOne(f, h, stack).carrier.things, other)
  {
    NothingLost(f.carrier, h.rules, h.trade, NewThing(f.carrier.things, stack));
  }

  lemma PlacedFew(f: Funds, h: Holder, a: Stack, b: Stack)
    ensures Placed(f, h, [a]) == PlacedOne(f, h, a)
    ensures Placed(f, h, [a, b]) == PlacedOne(f, h, a).(lost := PlacedOne(PlacedOne(f, h, a), h, b).lost,
      carrier := PlacedOne(PlacedOne(f, h, a), h, b).carrier, ground := PlacedOne(PlacedOne(f, h, a), h, b).ground)
  {
    assert [a][1..] == [] && [a, b][1..] == [b] && [b][1..] == [];
    var g := PlacedOne(f, h, a);
    assert Placed(g, h, [b]) == Placed(PlacedOne(g, h, b), h, []);
  }

  // Change of less than a crystal coin is at most one stack of platinum and one of gold.
  lemma ChangeLosesNone(f: Funds, h: Holder, change: nat)
    requires change < CRYSTAL && NoneUnfinished(f.carrier.things, KindOf(Gold))
    requires change >= 100 ==> NoneUnfinished(f.carrier.things, KindOf(Platinum))
    ensures MoneyAdded(f, h, change).lost == f.lost
  {
    ChangeIsSmall(change);
    SmallCounts(change);
    var p, g := Stack(Platinum, change / 100), Stack(Gold, change % 100);
    PlacedFew(f, h, p, g);
    PlacedFew(f, h, g, p);
    assert Made(change) == (if p.count != 0 then [p] else []) + if g.count != 0 then [g] else [];
    if p.count != 0 {
      PlacedOneLoses(f, h, p, KindOf(Gold));
      PlacedOneLoses(PlacedOne(f, h, p), h, g, KindOf(Crystal));
      assert [p] + [g] == [p, g] && [p] + [] == [p];
    } else {
      PlacedOneLoses(f, h, g, KindOf(Crystal));
      assert [] + [g] == [g];
    }
  }

  // What is left of the coins comes after what was taken, and so is worth no less than what
  // is paid from.
  lemma LeftIsWorthMore(s: seq<Thing>, q: seq<Thing>, k: nat, t: Thing)
    requires Listed(s, q) && Ascending(q) && k < |q| && t in TakeAll(s, q[..k])
    requires t in s ==> t in q
    ensures t in s && Value(t) >= Value(q[k])
  {
    assert q == q[..k] + q[k..];
    TakeAllLeaves(s, q[..k], q[k..], t);
    forall i | 0 <= i < k
      ensures q[i] != t
    {
      assert q[..k][i] in q[..k];
    }
  }

  // Whatever lies unfinished and is worth less than one coin of the stack that is paid from
  // has been taken before it.
  lemma SmallerAreGone(s: seq<Thing>, k: nat, kind: Kind)
    requires Proper(s) && k < |Queue(s)| && IsCoin(Queue(s)[k].kind) && IsCoin(kind)
    requires Unit(kind) * STACK <= Unit(Queue(s)[k].kind)
    ensures NoneUnfinished(TakeAll(s, Queue(s)[..k]), kind)
  {
    var q := Queue(s);
    var v := TakeAll(s, q[..k]);
    assert q[k] in q;
    forall j | 0 <= j < |v| && v[j].kind == kind
      ensures v[j].count >= STACK
    {
      LeftIsWorthMore(s, q, k, v[j]);
      FewAreWorthLess(v[j], q[k]);
    }
  }

  lemma FewAreWorthLess(t: Thing, e: Thing)
    requires IsCoin(t.kind) && IsCoin(e.kind) && Unit(t.kind) * STACK <= Unit(e.kind) && e.count >= 1
    ensures t.count < STACK ==> Value(t) < Value(e)
  {
  }

  lemma ChangeOfStack(s: seq<Thing>, k: nat, g: Funds, h: Holder, change: nat)
    requires Proper(s) && k < |Queue(s)| && IsCoin(Queue(s)[k].kind) && change < Unit(Queue(s)[k].kind)
    requires g.carrier.things == TakeAll(s, Queue(s)[..k])
    ensures MoneyAdded(g, h, change).lost == g.lost
  {
    if change == 0 {
      NothingMade();
    } else {
      SmallerAreGone(s, k, KindOf(Gold));
      if change >= 100 {
        SmallerAreGone(s, k, KindOf(Platinum));
      }
      ChangeLosesNone(g, h, change);
    }
  }

  // The change of a payment is never lost, whatever room there is: every stack that it
  // could complete has been taken first.
  lemma ChangeNeverLost(f: Funds, h: Holder, money: nat)
    requires money > 0 && Proper(f.carrier.things)
    ensures var q := Queue(f.carrier.things);
      Worth(q) >= money ==> MoneyAdded(Before(f, q, money), h, Change(q, money)).lost == f.lost
  {
    var q := Queue(f.carrier.things);
    TakenExactly(q, money);
    if Taken(q, money) < |q| {
      ChangeOfStack(f.carrier.things, Taken(q, money), Before(f, q, money), h, Change(q, money));
    }
  }

  // ---------- The whole payment ----------

  // removeMoney, for a sum that is there: the coins are paid with, least stacks first, and
  // the bank is charged with what `money` then holds, if it can be.
  function Removed(f: Funds, h: Holder, money: nat, useBalance: bool): Funds
    requires money > 0 && Proper(f.carrier.things)
  {
    var p := Pay(f, h, Queue(f.carrier.things), money);
    if useBalance && f.bank >= p.money then p.funds.(bank := f.bank - p.money) else p.funds
  }

  // Without the bank, a payment that succeeds takes exactly the sum, change included,
  // whatever room there is for the change.
  lemma CoinsPayExactly(f: Funds, h: Holder, money: nat)
    requires money > 0 && Worth(f.carrier.things) >= money && Proper(f.carrier.things)
    ensures var r := Removed(f, h, money, false);
      Total(r) == Total(f) - money && r.bank == f.bank && r.lost == f.lost
  {
    PayIsExact(f, h, Queue(f.carrier.things), money);
    ChangeNeverLost(f, h, money);
  }

  // With the bank, and too few coins, all coins go and the bank pays exactly the rest.
  lemma BankPaysTheRest(f: Funds, h: Holder, money: nat)
    requires Worth(f.carrier.things) < money <= Worth(f.carrier.things) + f.bank && Proper(f.carrier.things)
    ensures var r := Removed(f, h, money, true);
      Total(r) == Total(f) - money && r.bank == f.bank - (money - Worth(f.carrier.things)) &&
      Worth(r.carrier.things) == 0 && r.ground == f.ground
  {
    PayIsExact(f, h, Queue(f.carrier.things), money);
  }

  // What the last stack is taken for: the sum without the least stacks that stay below it
  function LastTakenFor(f: Funds, money: nat): nat
    requires money > 0 && Proper(f.carrier.things)
  {
    Owed(Queue(f.carrier.things), money)
  }

  // With the bank, a payment takes exactly the sum just when the coins are too few, or the
  // bank cannot pay what the last stack was taken for; otherwise it pays that once more.
  lemma PaymentExactly(f: Funds, h: Holder, money: nat)
    requires 0 < money <= Worth(f.carrier.things) + f.bank && Proper(f.carrier.things)
    ensures var q, last, after := Queue(f.carrier.things), LastTakenFor(f, money), Total(Removed(f, h, money, true));
      last == money - Worth(q[..Taken(q, money)]) &&
      (after == Total(f) - money <==> Worth(f.carrier.things) < money || f.bank < last) &&
      (after == Total(f) - money || after == Total(f) - money - last)
  {
    PayIsExact(f, h, Queue(f.carrier.things), money);
    ChangeNeverLost(f, h, money);
  }

  // With the sum in coins and once more in the bank, too much is always taken.
  lemma PaidTwice(f: Funds, h: Holder, money: nat)
    requires money > 0 && Worth(f.carrier.things) >= money && f.bank >= money && Proper(f.carrier.things)
    ensures Total(Removed(f, h, money, true)) < Total(f) - money
  {
    PaymentExactly(f, h, money);
  }

  // ---------- Examples ----------

  const NO_RULES: Rules := (_: seq<Thing>, _: Place, _: Thing) => true

  function InHand(count: nat, maxLoad: nat): Funds {
    var gold := Thing(0, KindOf(Gold), count, COIN_WEIGHT, Slot(6), {});
    Funds(Carrier([Pocket(Slot(6), 1, {})], [gold], maxLoad), 0, 0, 0)
  }

  // One gold coin in the hand and one in the bank: paying one takes both.
  lemma ChargedTwice()
    ensures var f := InHand(1, 10000).(bank := 1);
      Total(f) == 2 && Total(Removed(f, Holder(NO_RULES, None), 1, true)) == 0
  {
    var f := InHand(1, 10000).(bank := 1);
    WorthOfOne(f.carrier.things[0]);
    PaidTwice(f, Holder(NO_RULES, None), 1);
  }

  lemma HandHasRoom(count: nat, maxLoad: nat, added: nat)
    requires 1 <= count < STACK && 1 <= added
    ensures var c := InHand(count, maxLoad).carrier;
      var item := NewThing(c.things, Stack(Gold, added));
      Find(c, NO_RULES, None, item, true, 0) ==
        (if Bears(c, item, added) then At(c.pockets[0], Some(0)) else Nowhere) &&
      Fits(c, NO_RULES, item, 0) == if Bears(c, item, STACK - count) then STACK - count else 0
  {
    var c := InHand(count, maxLoad).carrier;
    var item := NewThing(c.things, Stack(Gold, added));
    HasSize(c.things, 0);
    assert FirstEqual(c.things, Slot(6), item, None, 0) == Some(0);
    assert Remainders(c, NO_RULES, Slot(6), item, 1) == 0;
    assert Find(c, NO_RULES, None, item, true, 1) == Nowhere && Fits(c, NO_RULES, item, 1) == 0;
  }

  // Fifty gold coins added to a hand that holds ninety-nine, with no other room: one stays.
  lemma OverflowLoses()
    ensures PlacedOne(InHand(99, 10000), Holder(NO_RULES, None), Stack(Gold, 50)).lost == 49
  {
    var c := InHand(99, 10000).carrier;
    var item := NewThing(c.things, Stack(Gold, 50));
    HandHasRoom(99, 10000, 50);
    assert Load(c.things) == 990 + Load([]);
    assert Add(c, NO_RULES, None, item) == Added(Grown(c, 0, 1), 49);
  }

  // Five gold coins added to a hand that holds ten, where the player can bear five more
  // but not ninety: all are lost.
  lemma WeightLoses()
    ensures PlacedOne(InHand(10, 150), Holder(NO_RULES, None), Stack(Gold, 5)).lost == 5
  {
    var c := InHand(10, 150).carrier;
    var item := NewThing(c.things, Stack(Gold, 5));
    HandHasRoom(10, 150, 5);
    assert Load(c.things) == 100 + Load([]);
    assert Add(c, NO_RULES, None, item) == Added(Grown(c, 0, 0), 5);
  }

  // A container with room for two things, which are ninety-nine gold coins and ten
  function InBag(maxLoad: nat): Funds {
    var a := Thing(0, KindOf(Gold), 99, COIN_WEIGHT, Inside(7), {7});
    Funds(Carrier([Pocket(Inside(7), 2, {7})], [a, a.(id := 1, count := 10)], maxLoad), 0, 0, 0)
  }

  lemma BagHolds(maxLoad: nat)
    ensures var c := InBag(maxLoad).carrier;
      Ordinary(c, Holder(NO_RULES, None)) && Load(c.things) == 1090 && Size(c.things, Inside(7)) == 2
  {
    var s := InBag(maxLoad).carrier.things;
    assert s[1..] == [s[1]] && s[1..][1..] == [];
    assert Load(s[1..]) == 100 && Size(s[1..], Inside(7)) == 1;
  }

  lemma BagHasRoom(maxLoad: nat)
    ensures var c := InBag(maxLoad).carrier;
      var item := NewThing(c.things, Stack(Gold, 20));
      Entries(c, NO_RULES, None, item, 0) == [Gap(1, false, true), Gap(90, false, true)] &&
      Passed(c, NO_RULES, None, item, 0) == [] && Spare(c, NO_RULES, item, 0) == 0
  {
    var c := InBag(maxLoad).carrier;
    var item, p := NewThing(c.things, Stack(Gold, 20)), c.pockets[0];
    BagHolds(maxLoad);
    NoneGone(c.things);
    assert StacksAt(c, NO_RULES, None, item, p, false, 1) == [Gap(90, false, true)];
    assert StacksAt(c, NO_RULES, None, item, p, false, 0) == [Gap(1, false, true)] + [Gap(90, false, true)];
    assert StacksAt(c, NO_RULES, None, item, p, true, 1) == [];
    assert Entries(c, NO_RULES, None, item, 1) == [] == Passed(c, NO_RULES, None, item, 1);
  }

  lemma {:induction false} NoneGone(s: seq<Thing>)
    ensures Unoffered(s, None) == s
  {
    if s != [] {
      NoneGone(s[1..]);
    }
  }

  // Twenty gold coins added to it, where the player can bear ninety more: both stacks are
  // counted as room, but once the first is full the other is too heavy to fill.
  lemma ContainerLoses()
    ensures PlacedOne(InBag(1990), Holder(NO_RULES, None), Stack(Gold, 20)).lost == 19
  {
    BagHolds(1990);
    BagLoses();
    PlacedOneLost(InBag(1990), Holder(NO_RULES, None), Stack(Gold, 20));
  }

  lemma BagLoses()
    ensures LostCoins(InBag(1990), Holder(NO_RULES, None), Stack(Gold, 20)) == 19
  {
    var c := InBag(1990).carrier;
    BagHolds(1990);
    BagHasRoom(1990);
    SecondIsTooHeavy();
    assert FreeLoad(c) == 900 && LossIn(c, NO_RULES, None, NewThing(c.things, Stack(Gold, 20))) == Some(19);
  }

  lemma SecondIsTooHeavy()
    ensures LossOf([Gap(1, false, true), Gap(90, false, true)], [], 0, COIN_WEIGHT, 20, 900) == Some(19)
  {
    var es := [Gap(1, false, true), Gap(90, false, true)];
    assert es[1..] == [Gap(90, false, true)] && es[1..][1..] == [];
    assert Counted(es[1..], COIN_WEIGHT, 900) == 90 && Counted(es[1..], COIN_WEIGHT, 890) == 0;
    assert RoomFor(es, [], 0, COIN_WEIGHT, 900) == 91;
    assert LossOf(es[1..], [], 0, COIN_WEIGHT, 19, 890) == None;
  }

  // ---------- The methods ----------

  class Customer {
    const player: Player
    var ground: nat
    var bank: nat
    ghost var lost: nat

    function Purse(): Holder
      reads player
    {
      Holder(player.rules, player.tradeItem)
    }

    ghost function State(): Funds
      reads this, player
    {
      Funds(player.State(), ground, bank, lost)
    }

    constructor (player: Player, bank: nat)
      ensures this.player == player && State() == Funds(player.State(), 0, bank, 0)
    {
      this.player, this.bank, ground, lost := player, bank, 0, 0;
    }

    // A new stack goes to the player, or else to the tile.
    method AddStack(stack: Stack)
      modifies this`ground, this`lost, player`things
      ensures State() == PlacedOne(old(State()), Purse(), stack) && Purse() == old(Purse())
    {
      var added, released := player.InternalAddItem(NewThing(player.things, stack));
      if added {
        lost := lost + Price(KindOf(stack.coin), released);
      } else {
        ground := ground + Price(KindOf(stack.coin), stack.count);
      }
    }

    // Crystal coins come in stacks of up to a hundred.
    method AddCrystalCoins(coins: nat, ghost tail: seq<Stack>)
      modifies this`ground, this`lost, player`things
      ensures Placed(State(), Purse(), tail) == Placed(old(State()), Purse(), CrystalStacks(coins) + tail)
      ensures Purse() == old(Purse())
    {
      var crystalCoins := coins;
      ghost var todo := CrystalStacks(coins) + tail;
      assert CrystalStacks(0) + tail == tail;
      while crystalCoins > 0
        invariant Purse() == old(Purse()) && todo == CrystalStacks(crystalCoins) + tail
        invariant Placed(State(), Purse(), todo) == Placed(old(State()), Purse(), CrystalStacks(coins) + tail)
      {
        var count := if crystalCoins < 100 then crystalCoins else 100;
        NextCrystals(crystalCoins, tail);
        AddStack(Stack(Crystal, NewCount(count)));
        crystalCoins := crystalCoins - count;
        todo := todo[1..];
      }
    }

    method AddSmallCoins(left: nat)
      modifies this`ground, this`lost, player`things
      ensures State() == Placed(old(State()), Purse(), SmallStacks(left)) && Purse() == old(Purse())
    {
      var platinumCoins := left / 100 % WORD;
      ghost var todo := SmallStacks(left);
      if platinumCoins != 0 {
        AddStack(Stack(Platinum, NewCount(platinumCoins)));
        todo := todo[1..];
      }
      assert Placed(State(), Purse(), todo) == Placed(old(State()), Purse(), SmallStacks(left));
      var last := left - platinumCoins * 100;
      assert todo == if last != 0 then [Stack(Gold, NewCount(last))] else [];
      if last != 0 {
        AddStack(Stack(Gold, NewCount(last)));
        todo := todo[1..];
      }
    }

    method AddMoney(money: nat)
      modifies this`ground, this`lost, player`things
      ensures State() == MoneyAdded(old(State()), Purse(), money) && Purse() == old(Purse())
    {
      if money == 0 {
        NothingMade();
        return;
      }
      var crystalCoins := money / CRYSTAL % DOUBLE;
      ghost var f := State();
      AddCrystalCoins(crystalCoins, SmallStacks(Left(money, crystalCoins)));
      AddSmallCoins(Left(money, crystalCoins));
    }

    // The money that is found, counted and put into the multimap
    method CollectMoney() returns (moneyMap: seq<Thing>, moneyCount: nat)
      ensures moneyMap == Sorted(player.things) && moneyCount == Worth(player.things)
    {
      moneyMap, moneyCount := [], 0;
      var s := player.things;
      for i := 0 to |s|
        invariant moneyMap == Sorted(s[..i]) && moneyCount == Worth(s[..i])
      {
        assert s[..i + 1][..i] == s[..i] && s[..i + 1] == s[..i] + [s[i]];
        WorthOfConcat(s[..i], [s[i]]);
        WorthOfOne(s[i]);
        var worth := Value(s[i]);
        if worth != 0 {
          moneyCount := moneyCount + worth;
          moneyMap := Emplace(moneyMap, s[i]);
        }
      }
      assert s[..|s|] == s;
    }

    // internalRemoveItem
    method RemoveItem(item: Thing, count: nat)
      modifies player`things
      ensures State() == WithThings(old(State()), TakeFrom(old(player.things), item.id, count))
      ensures Purse() == old(Purse())
    {
      player.things := TakeFrom(player.things, item.id, count);
    }

    // The stack that covers what is left: change first, then the coins
    method PayFrom(item: Thing, money: nat)
      requires Covers(item, money)
      modifies this`ground, this`lost, player`things
      ensures State() == PaidFrom(old(State()), Purse(), item, money) && Purse() == old(Purse())
    {
      if Value(item) > money {
        var worth := Value(item) / item.count;
        UnitOfValue(item);
        var removeCount := Ceiling(money, worth);
        assert removeCount == Needed(item, money);
        AddMoney(ChangeFor(item, money));
        RemoveItem(item, removeCount);
      } else {
        NothingMade();
        RemoveItem(item, item.count);
      }
    }

    // The loop that pays
    method PayWith(moneyMap: seq<Thing>, sum: nat) returns (money: nat)
      requires sum > 0 && AllCoins(moneyMap)
      modifies this`ground, this`lost, player`things
      ensures var p := Pay(old(State()), Purse(), moneyMap, sum);
        State() == p.funds && money == p.money && Purse() == old(Purse())
    {
      money := sum;
      TakenExactly(moneyMap, sum);
      for i := 0 to |moneyMap|
        invariant i <= Taken(moneyMap, sum) && money == sum - Worth(moneyMap[..i]) && money > 0
        invariant Purse() == old(Purse())
        invariant State() == WithThings(old(State()), TakeAll(old(player.things), moneyMap[..i]))
      {
        var item := moneyMap[i];
        assert item in moneyMap;
        TakenStep(moneyMap, sum, i);
        if Value(item) < money {
          TakeAllStep(old(player.things), moneyMap, i);
          money := money - Value(item);
          RemoveItem(item, item.count);
        } else {
          PayFrom(item, money);
          return;
        }
      }
    }

    method RemoveMoney(money: nat, useBalance: bool) returns (paid: bool)
      requires Proper(player.things)
      modifies this`ground, this`bank, this`lost, player`things
      ensures paid <==> money <= Worth(old(player.things)) + if useBalance then old(bank) else 0
      ensures State() == if money > 0 && paid then Removed(old(State()), Purse(), money, useBalance) else old(State())
      ensures Purse() == old(Purse())
    {
      if money == 0 {
        return true;
      }
      var moneyMap, moneyCount := CollectMoney();
      var balance := if useBalance then bank else 0;
      if moneyCount + balance < money {
        return false;
      }
      PayIsExact(State(), Purse(), Queue(player.things), money);
      var left := PayWith(moneyMap, money);
      if useBalance && bank >= left {
        bank := bank - left;
      }
      return true;
    }
  }

  lemma NextCrystals(n: nat, tail: seq<Stack>)
    requires n > 0
    ensures var count := if n < 100 then n else 100;
      var s := CrystalStacks(n) + tail;
      s != [] && s[0] == Stack(Crystal, NewCount(count)) && s[1..] == CrystalStacks(n - count) + tail
  {
  }

  lemma UnitOfValue(t: Thing)
    requires IsCoin(t.kind) && t.count > 0
    ensures Value(t) / t.count == Unit(t.kind)
  {
    DivMod(Value(t), t.count, Unit(t.kind), 0);
  }

  lemma {:induction false} TakenStep(q: seq<Thing>, money: nat, i: nat)
    requires i < |q| && i <= Taken(q, money) && money > 0
    ensures Worth(q[..i + 1]) == Worth(q[..i]) + Value(q[i])
    ensures i < Taken(q, money) <==> Value(q[i]) < money - Worth(q[..i])
  {
    if i == 0 {
      assert q[..1] == [q[0]];
      WorthOfOne(q[0]);
    } else {
      TakenStep(q[1..], money - Value(q[0]), i - 1);
      assert q[..i + 1] == [q[0]] + q[1..][..i] && q[..i] == [q[0]] + q[1..][..i - 1];
      assert q[..i + 1][1..] == q[1..][..i] && q[..i][1..] == q[1..][..i - 1];
    }
  }

  lemma {:induction false} TakeAllStep(s: seq<Thing>, q: seq<Thing>, i: nat)
    requires i < |q|
    ensures TakeAll(s, q[..i + 1]) == TakeFrom(TakeAll(s, q[..i]), q[i].id, q[i].count)
    decreases i
  {
    if i == 0 {
      assert q[..1][1..] == [];
    } else {
      TakeAllStep(TakeFrom(s, q[0].id, q[0].count), q[1..], i - 1);
      assert q[..i + 1][1..] == q[1..][..i] && q[..i][1..] == q[1..][..i - 1];
    }
  }
}
