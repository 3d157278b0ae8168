// How the conditions of a player are written to and read back from bytes (serialize,
// unserialize and createCondition in condition.cpp, the loops of iologindata.cpp).
module ConditionCodec {

  import opened ConditionTypes
  import opened Wrappers

  type Byte = b: int | 0 <= b < 256 witness 0
  type Bytes = seq<Byte>

  const WORD: nat := 65536
  const DOUBLE: nat := 4294967296

  type Uint16 = v: int | 0 <= v < WORD witness 0
  type Uint32 = v: int | 0 <= v < DOUBLE witness 0
  type Int8 = v: int | -128 <= v < 128 witness 0
  type Int32 = v: int | -2147483648 <= v < 2147483648 witness 0

  // ---------- Numbers in memory ----------

  function U16(v: Uint16): Bytes { [v % 256, v / 256] }

  function U32(v: Uint32): Bytes {
    var v1 := v / 256;
    var v2 := v1 / 256;
    [v % 256, v1 % 256, v2 % 256, v2 / 256]
  }

  // The bit pattern of a signed number
  function Unsigned(v: Int32): Uint32 { if v < 0 then v + DOUBLE else v }

  function Signed(v: Uint32): Int32 { if v >= 2147483648 then v - DOUBLE else v }

  function I32(v: Int32): Bytes { U32(Unsigned(v)) }

  // The number that the bytes are, lowest byte first
  function Number(b0: int, b1: int, b2: int, b3: int): int {
    b0 + 256 * (b1 + 256 * (b2 + 256 * b3))
  }

  datatype Taken<T> = Nothing | Got(value: T, rest: Bytes)

  function Take8(s: Bytes): Taken<Byte> {
    if |s| < 1 then Nothing else Got(s[0], s[1..])
  }

  function Take16(s: Bytes): Taken<Uint16> {
    if |s| < 2 then Nothing else Got(Number(s[0], s[1], 0, 0), s[2..])
  }

  function Take32(s: Bytes): Taken<Uint32> {
    if |s| < 4 then Nothing else Got(Number(s[0], s[1], s[2], s[3]), s[4..])
  }

  // So many bytes as they stand
  function TakeRaw(s: Bytes, n: nat): Taken<Bytes> {
    if |s| < n then Nothing else Got(s[..n], s[n..])
  }

  lemma Take16Back(v: Uint16, rest: Bytes)
    ensures Take16(U16(v) + rest) == Got(v, rest)
  {
    assert (U16(v) + rest)[2..] == rest;
  }

  lemma Take32Back(v: Uint32, rest: Bytes)
    ensures Take32(U32(v) + rest) == Got(v, rest)
  {
    assert (U32(v) + rest)[4..] == rest;
  }

  lemma TakeRawBack(raw: Bytes, rest: Bytes)
    ensures TakeRaw(raw + rest, |raw|) == Got(raw, rest)
  {
    assert (raw + rest)[..|raw|] == raw && (raw + rest)[|raw|..] == rest;
  }

  // ---------- Conditions ----------

  type Skills = s: seq<Int32> | |s| == SKILLS witness [0, 0, 0, 0, 0, 0, 0, 0, 0, 0, 0, 0, 0]
  type Stats = s: seq<Int32> | |s| == STATS witness [0, 0, 0, 0, 0]

  type Float = s: Bytes | |s| == 4 witness [0, 0, 0, 0]

  datatype Interval = Interval(timeLeft: Int32, value: Int32, interval: Int32)

  // The outfit as it lies in memory: three 16-bit numbers, five bytes, and one byte of padding
  datatype Look = Look(lookType: Uint16, lookTypeEx: Uint16, lookMount: Uint16,
    head: Byte, body: Byte, legs: Byte, feet: Byte, addons: Byte, padding: Byte)

  // What a class of conditions adds to the common fields
  datatype Extra =
    | Plain
    | Damage(delayed: bool, periodDamage: Int32, list: seq<Interval>)
    | Speed(delta: Int32, mina: Float, minb: Float, maxa: Float, maxb: Float)
    | Attributes(skills: Skills, stats: Stats, currentSkill: nat, currentStat: nat)
    | Regeneration(healthTicks: Uint32, healthGain: Uint32, manaTicks: Uint32, manaGain: Uint32)
    | Soul(soulGain: Uint32, soulTicks: Uint32)
    | SoulBonus(bonusGain: Uint32, bonusTicks: Uint32)
    | Stamina(staminaGain: Uint16, staminaTicks: Uint32)
    | Outfit(look: Look)
    | Light(color: Byte, level: Byte, lightTicks: Uint32, lightInterval: Uint32)

  datatype Cond = Cond(ctype: Uint32, id: Int8, ticks: Int32, isBuff: bool, subId: Uint32, extra: Extra)

  predicate IsDamage(ctype: nat) {
    ctype in {POISON, FIRE, ENERGY, DROWN, FREEZING, DAZZLED, CURSED, BLEEDING}
  }

  predicate IsPlain(ctype: nat) {
    ctype in {INVISIBLE, SPELLCOOLDOWN, SPELLGROUPCOOLDOWN, INFIGHT, DRUNK, EXHAUST, EXHAUST_COMBAT, EXHAUST_HEAL,
      MUTED, CHANNELMUTEDTICKS, YELLTICKS, PACIFIED, MANASHIELD}
  }

  const ZERO: Float := [0, 0, 0, 0]
  const NAKED := Look(0, 0, 0, 0, 0, 0, 0, 0, 0)

  // What the class's constructor sets, or nothing for a type that has no class
  function Initial(ctype: nat): Option<Extra> {
    if IsDamage(ctype) then Some(Damage(false, 0, []))
    else if ctype == HASTE || ctype == PARALYZE then Some(Speed(0, ZERO, ZERO, ZERO, ZERO))
    else if ctype == OUTFIT then Some(Outfit(NAKED))
    else if ctype == LIGHT then Some(Light(0, 0, 0, 0))
    else if ctype == REGENERATION then Some(Regeneration(1000, 0, 1000, 0))
    else if ctype == SOUL then Some(Soul(0, 0))
    else if ctype == SOULBONUS then Some(SoulBonus(0, 0))
    else if ctype == STAMINAREGEN then Some(Stamina(1, 0))
    else if ctype == ATTRIBUTES then
      Some(Attributes([0, 0, 0, 0, 0, 0, 0, 0, 0, 0, 0, 0, 0], [0, 0, 0, 0, 0], 0, 0))
    else if IsPlain(ctype) then Some(Plain)
    else None
  }

  // ---------- Writing ----------

  function Bool8(b: bool): Byte { if b then 1 else 0 }

  // A tag and what follows it
  function Entry(tag: Byte, payload: Bytes): Bytes { [tag] + payload }

  function Header(c: Cond): Bytes {
    Entry(1, U32(c.ctype)) + (Entry(2, I32(c.id)) + (Entry(3, I32(c.ticks)) +
    (Entry(26, [Bool8(c.isBuff)]) + Entry(27, U32(c.subId)))))
  }

  function IntervalBytes(i: Interval): Bytes { I32(i.timeLeft) + (I32(i.value) + I32(i.interval)) }

  function LookBytes(o: Look): Bytes {
    U16(o.lookType) + (U16(o.lookTypeEx) + (U16(o.lookMount) + [o.head, o.body, o.legs, o.feet, o.addons, o.padding]))
  }

  function IntervalsBytes(list: seq<Interval>): Bytes {
    if list == [] then [] else Entry(10, IntervalBytes(list[0])) + IntervalsBytes(list[1..])
  }

  // Each value behind the same tag
  function TaggedBytes(tag: Byte, values: seq<Int32>): Bytes {
    if values == [] then [] else Entry(tag, I32(values[0])) + TaggedBytes(tag, values[1..])
  }

  function ExtraBytes(e: Extra): Bytes {
    match e
    case Plain => []
    case Damage(delayed, periodDamage, list) =>
      Entry(8, [Bool8(delayed)]) + (Entry(25, I32(periodDamage)) + IntervalsBytes(list))
    case Speed(delta, mina, minb, maxa, maxb) =>
      Entry(11, I32(delta)) + (Entry(12, mina) + (Entry(13, minb) + (Entry(14, maxa) + Entry(15, maxb))))
    case Attributes(skills, stats, _, _) => TaggedBytes(22, skills) + TaggedBytes(23, stats)
    case Regeneration(healthTicks, healthGain, manaTicks, manaGain) =>
      Entry(4, U32(healthTicks)) + (Entry(5, U32(healthGain)) + (Entry(6, U32(manaTicks)) + Entry(7, U32(manaGain))))
    case Soul(gain, ticks) => Entry(21, U32(gain)) + Entry(20, U32(ticks))
    case SoulBonus(gain, ticks) => Entry(21, U32(gain)) + Entry(20, U32(ticks))
    case Stamina(gain, ticks) => Entry(28, U16(gain)) + Entry(29, U32(ticks))
    case Outfit(look) => Entry(24, LookBytes(look))
    case Light(color, level, ticks, interval) =>
      Entry(16, U32(color)) + (Entry(17, U32(level)) + (Entry(18, U32(ticks)) + Entry(19, U32(interval))))
  }

  const ENDS: Byte := 254

  function Persistent(c: Cond): bool { c.ticks != -1 && (c.id == -1 || c.id == 0) }

  // What the program keeps in one condition: the persistent ones, each closed by an end mark
  function Saved(cs: seq<Cond>): Bytes {
    if cs == [] then []
    else (if Persistent(cs[0]) then Header(cs[0]) + (ExtraBytes(cs[0].extra) + [ENDS]) else []) + Saved(cs[1..])
  }

  // ---------- Reading ----------

  datatype Fields = Fields(ctype: Uint32, id: Uint32, ticks: Uint32)

  datatype Tail = Tail(buff: Byte, subId: Uint32)

  function TakeFields(s: Bytes): (r: Taken<Fields>)
    ensures r.Got? ==> |r.rest| < |s|
  {
    match Tagged32(s, 1)
    case Nothing => Nothing
    case Got(ctype, s1) =>
      match Tagged32(s1, 2)
      case Nothing => Nothing
      case Got(id, s2) =>
        match Tagged32(s2, 3)
        case Nothing => Nothing
        case Got(ticks, s3) => Got(Fields(ctype, id, ticks), s3)
  }

  function TakeTail(s: Bytes): (r: Taken<Tail>)
    ensures r.Got? ==> |r.rest| < |s|
  {
    match Tagged8(s, 26)
    case Nothing => Nothing
    case Got(buff, s1) =>
      match Tagged32(s1, 27)
      case Nothing => Nothing
      case Got(subId, s2) => Got(Tail(buff, subId), s2)
  }

  // createCondition: the common fields, in order, for a type that has a class
  function Created(s: Bytes): (r: Taken<Cond>)
    ensures r.Got? ==> |r.rest| < |s|
  {
    match TakeFields(s)
    case Nothing => Nothing
    case Got(f, s1) =>
      match TakeTail(s1)
      case Nothing => Nothing
      case Got(t, s2) => Made(f.ctype, f.id, f.ticks, t.buff, t.subId, s2)
  }

  function Tagged8(s: Bytes, tag: Byte): Taken<Byte> {
    if |s| < 1 || s[0] != tag then Nothing else Take8(s[1..])
  }

  function Tagged32(s: Bytes, tag: Byte): Taken<Uint32> {
    if |s| < 1 || s[0] != tag then Nothing else Take32(s[1..])
  }

  // The low byte of an id, as a signed number
  function IdOf(v: Uint32): Int8 {
    var b := v % 256;
    if b >= 128 then b - 256 else b
  }

  function Made(ctype: Uint32, id: Uint32, ticks: Uint32, buff: Byte, subId: Uint32, rest: Bytes): Taken<Cond> {
    var e := Initial(ctype);
    if e.None? then Nothing
    else Got(Cond(ctype, IdOf(id), if e.value.Damage? then 0 else Signed(ticks), buff != 0, subId, e.value), rest)
  }

  // The outcome of unserializeProp: whether it succeeded, the condition, the bytes left
  datatype Read = Read(ok: bool, c: Cond, rest: Bytes)

  function Failed(c: Cond, s: Bytes): Read { Read(false, c, s) }

  function CommonProp(c: Cond, attr: Byte, s: Bytes): Read {
    if attr == 1 then
      match Take32(s) case Nothing => Failed(c, s) case Got(v, rest) => Read(true, c.(ctype := v), rest)
    else if attr == 2 then
      match Take32(s) case Nothing => Failed(c, s) case Got(v, rest) => Read(true, c.(id := IdOf(v)), rest)
    else if attr == 3 then
      match Take32(s) case Nothing => Failed(c, s) case Got(v, rest) => Read(true, c.(ticks := Signed(v)), rest)
    else if attr == 26 then
      match Take8(s) case Nothing => Failed(c, s) case Got(v, rest) => Read(true, c.(isBuff := v != 0), rest)
    else if attr == 27 then
      match Take32(s) case Nothing => Failed(c, s) case Got(v, rest) => Read(true, c.(subId := v), rest)
    else Read(attr == ENDS, c, s)
  }

  // A sum of two 32-bit numbers, in 32 bits
  function Sum32(a: Int32, b: Int32): Int32 {
    var v := a + b;
    if v >= 2147483648 then v - DOUBLE else if v < -2147483648 then v + DOUBLE else v
  }

  function TakeInterval(s: Bytes): Taken<Interval> {
    if |s| < 12 then Nothing
    else
      Got(Interval(Signed(Take32(s).value), Signed(Take32(s[4..]).value), Signed(Take32(s[8..]).value)), s[12..])
  }

  function TakeLook(s: Bytes): Taken<Look> {
    if |s| < 12 then Nothing
    else
      Got(Look(Take16(s).value, Take16(s[2..]).value, Take16(s[4..]).value, s[6], s[7], s[8], s[9], s[10], s[11]),
        s[12..])
  }

  function SpeedProp(c: Cond, attr: Byte, s: Bytes): Read
    requires c.extra.Speed?
  {
    if attr == 11 then
      match Take32(s)
      case Nothing => Failed(c, s)
      case Got(v, rest) => Read(true, c.(extra := c.extra.(delta := Signed(v))), rest)
    else if attr == 12 || attr == 13 || attr == 14 || attr == 15 then
      match TakeRaw(s, 4)
      case Nothing => Failed(c, s)
      case Got(v, rest) =>
        Read(true, c.(extra :=
          if attr == 12 then c.extra.(mina := s[..4]) else if attr == 13 then c.extra.(minb := s[..4])
          else if attr == 14 then c.extra.(maxa := s[..4]) else c.extra.(maxb := s[..4])), rest)
    else CommonProp(c, attr, s)
  }

  function DamageProp(c: Cond, attr: Byte, s: Bytes): Read
    requires c.extra.Damage?
  {
    if attr == 8 then
      match Take8(s)
      case Nothing => Failed(c, s)
      case Got(v, rest) => Read(true, c.(extra := c.extra.(delayed := v != 0)), rest)
    else if attr == 25 then
      match Take32(s)
      case Nothing => Failed(c, s)
      case Got(v, rest) => Read(true, c.(extra := c.extra.(periodDamage := Signed(v))), rest)
    else if attr == 9 then
      match TakeRaw(s, 4)
      case Nothing => Failed(c, s)
      case Got(_, rest) => Read(true, c, rest)
    else if attr == 10 then
      match TakeInterval(s)
      case Nothing => Failed(c, s)
      case Got(v, rest) =>
        Read(true, c.(extra := c.extra.(list := c.extra.list + [v]),
                      ticks := if c.ticks != -1 then Sum32(c.ticks, v.interval) else -1), rest)
    else CommonProp(c, attr, s)
  }

  // The program keeps no count of how many values there may be; reading more than there
  // is room for is not defined here.
  function AttributesProp(c: Cond, attr: Byte, s: Bytes): Read
    requires c.extra.Attributes?
  {
    var e := c.extra;
    if attr == 22 then
      match Take32(s)
      case Nothing => Failed(c, s)
      case Got(v, rest) =>
        if e.currentSkill >= SKILLS then Failed(c, s)
        else
          var skills := e.skills[e.currentSkill := Signed(v)];
          Read(true, c.(extra := e.(skills := skills, currentSkill := e.currentSkill + 1)), rest)
    else if attr == 23 then
      match Take32(s)
      case Nothing => Failed(c, s)
      case Got(v, rest) =>
        if e.currentStat >= STATS then Failed(c, s)
        else
          var stats := e.stats[e.currentStat := Signed(v)];
          Read(true, c.(extra := e.(stats := stats, currentStat := e.currentStat + 1)), rest)
    else CommonProp(c, attr, s)
  }

  // The classes whose properties are all numbers without a sign
  function NumberProp(c: Cond, attr: Byte, s: Bytes): Read {
    var e := c.extra;
    if e.Stamina? && attr == 28 then
      match Take16(s)
      case Nothing => Failed(c, s)
      case Got(v, rest) => Read(true, c.(extra := e.(staminaGain := v)), rest)
    else if HasNumber(e, attr) then
      match Take32(s)
      case Nothing => Failed(c, s)
      case Got(v, rest) => Read(true, c.(extra := WithNumber(e, attr, v)), rest)
    else CommonProp(c, attr, s)
  }

  predicate HasNumber(e: Extra, attr: Byte) {
    match e
    case Regeneration(_, _, _, _) => 4 <= attr <= 7
    case Soul(_, _) => attr == 20 || attr == 21
    case SoulBonus(_, _) => attr == 20 || attr == 21
    case Stamina(_, _) => attr == 29
    case Light(_, _, _, _) => 16 <= attr <= 19
    case _ => false
  }

  function WithNumber(e: Extra, attr: Byte, v: Uint32): Extra
    requires HasNumber(e, attr)
  {
    match e
    case Regeneration(_, _, _, _) =>
      if attr == 4 then e.(healthTicks := v) else if attr == 5 then e.(healthGain := v)
      else if attr == 6 then e.(manaTicks := v) else e.(manaGain := v)
    case Soul(_, _) => if attr == 21 then e.(soulGain := v) else e.(soulTicks := v)
    case SoulBonus(_, _) => if attr == 21 then e.(bonusGain := v) else e.(bonusTicks := v)
    case Stamina(_, _) => e.(staminaTicks := v)
    case Light(_, _, _, _) =>
      if attr == 16 then e.(color := v % 256) else if attr == 17 then e.(level := v % 256)
      else if attr == 18 then e.(lightTicks := v) else e.(lightInterval := v)
  }

  function OutfitProp(c: Cond, attr: Byte, s: Bytes): Read
    requires c.extra.Outfit?
  {
    if attr == 24 then
      match TakeLook(s)
      case Nothing => Failed(c, s)
      case Got(v, rest) => Read(true, c.(extra := Outfit(v)), rest)
    else CommonProp(c, attr, s)
  }

  // unserializeProp
  function Prop(c: Cond, attr: Byte, s: Bytes): (r: Read)
    ensures |r.rest| <= |s|
  {
    match c.extra
    case Plain => CommonProp(c, attr, s)
    case Damage(_, _, _) => DamageProp(c, attr, s)
    case Speed(_, _, _, _, _) => SpeedProp(c, attr, s)
    case Attributes(_, _, _, _) => AttributesProp(c, attr, s)
    case Outfit(_) => OutfitProp(c, attr, s)
    case _ => NumberProp(c, attr, s)
  }

  // unserialize
  function Unserialized(c: Cond, s: Bytes): (r: Read)
    ensures |r.rest| <= |s|
    decreases |s|
  {
    if s == [] then Read(true, c, s)
    else if s[0] == ENDS then Read(true, c, s[1..])
    else
      var r := Prop(c, s[0], s[1..]);
      if r.ok then Unserialized(r.c, r.rest) else r
  }

  // The loop that loads a player's conditions, the last one read first
  function Loaded(s: Bytes, before: seq<Cond>): seq<Cond>
    decreases |s|
  {
    match Created(s)
    case Nothing => before
    case Got(c, rest) =>
      var r := Unserialized(c, rest);
      Loaded(r.rest, if r.ok then [r.c] + before else before)
  }

  // ---------- Reading back what was written ----------

  // Whether the condition is of the class that its type calls for
  predicate WellFormed(c: Cond) {
    var e := Initial(c.ctype);
    e.Some? &&
    match c.extra
    case Plain => e.value.Plain?
    case Damage(_, _, _) => e.value.Damage?
    case Speed(_, _, _, _, _) => e.value.Speed?
    case Attributes(_, _, _, _) => e.value.Attributes?
    case Regeneration(_, _, _, _) => e.value.Regeneration?
    case Soul(_, _) => e.value.Soul?
    case SoulBonus(_, _) => e.value.SoulBonus?
    case Stamina(_, _) => e.value.Stamina?
    case Outfit(_) => e.value.Outfit?
    case Light(_, _, _, _) => e.value.Light?
  }

  // Ticks as the intervals of a damage condition add up
  function Accumulated(ticks: Int32, list: seq<Interval>): Int32
    decreases |list|
  {
    if list == [] then ticks
    else Accumulated(if ticks != -1 then Sum32(ticks, list[0].interval) else -1, list[1..])
  }

  // What reading back gives: everything that was written, with the ticks of a damage
  // condition made from its intervals.
  function Restored(c: Cond): Cond {
    match c.extra
    case Damage(_, _, list) => c.(ticks := Accumulated(0, list))
    case Attributes(_, _, _, _) => c.(extra := c.extra.(currentSkill := SKILLS, currentStat := STATS))
    case _ => c
  }

  // A condition just created, of the same class and with the same common fields
  function Fresh(c: Cond): Cond
    requires WellFormed(c)
  {
    var e := Initial(c.ctype).value;
    c.(extra := e, ticks := if e.Damage? then 0 else c.ticks)
  }

  lemma Regroup(a: Bytes, b: Bytes, c: Bytes, d: Bytes, more: Bytes)
    ensures a + (b + (c + d)) + more == a + (b + (c + (d + more)))
  {
  }

  lemma DropDrop(s: Bytes, i: nat, j: nat)
    requires i + j <= |s|
    ensures s[i..][j..] == s[i + j..]
  {
  }

  lemma Tagged32Back(tag: Byte, v: Uint32, rest: Bytes)
    ensures Tagged32(Entry(tag, U32(v)) + rest, tag) == Got(v, rest)
  {
    var s := Entry(tag, U32(v)) + rest;
    assert s[1..] == U32(v) + rest;
    Take32Back(v, rest);
  }

  lemma Tagged8Back(tag: Byte, v: Byte, rest: Bytes)
    ensures Tagged8(Entry(tag, [v]) + rest, tag) == Got(v, rest)
  {
    assert (Entry(tag, [v]) + rest)[1..] == [v] + rest;
  }

  lemma HeaderParts(c: Cond, rest: Bytes)
    ensures Header(c) + rest == Entry(1, U32(c.ctype)) + (Entry(2, I32(c.id)) + (Entry(3, I32(c.ticks)) +
      (Entry(26, [Bool8(c.isBuff)]) + (Entry(27, U32(c.subId)) + rest))))
  {
    var e4 := Entry(26, [Bool8(c.isBuff)]) + Entry(27, U32(c.subId));
    Regroup(Entry(1, U32(c.ctype)), Entry(2, I32(c.id)), Entry(3, I32(c.ticks)), e4, rest);
    assert e4 + rest == Entry(26, [Bool8(c.isBuff)]) + (Entry(27, U32(c.subId)) + rest);
  }

  lemma IdBack(id: Int8)
    ensures IdOf(Unsigned(id)) == id
  {
  }

  lemma MadeBack(c: Cond, rest: Bytes)
    requires WellFormed(c)
    ensures Made(c.ctype, Unsigned(c.id), Unsigned(c.ticks), Bool8(c.isBuff), c.subId, rest) == Got(Fresh(c), rest)
  {
    IdBack(c.id);
  }

  // The five common fields are read one after the other.
  lemma CreatedFrom(s: Bytes, t: Taken<Uint32>, i: Taken<Uint32>, k: Taken<Uint32>, b: Taken<Byte>, u: Taken<Uint32>)
    requires t.Got? && i.Got? && k.Got? && b.Got? && u.Got?
    requires Tagged32(s, 1) == t && Tagged32(t.rest, 2) == i && Tagged32(i.rest, 3) == k
    requires Tagged8(k.rest, 26) == b && Tagged32(b.rest, 27) == u
    ensures Created(s) == Made(t.value, i.value, k.value, b.value, u.value, u.rest)
  {
  }

  lemma CreatedBack(c: Cond, rest: Bytes)
    requires WellFormed(c)
    ensures Created(Header(c) + rest) == Got(Fresh(c), rest)
  {
    var r5 := Entry(27, U32(c.subId)) + rest;
    var r4 := Entry(26, [Bool8(c.isBuff)]) + r5;
    var r3 := Entry(3, I32(c.ticks)) + r4;
    var r2 := Entry(2, I32(c.id)) + r3;
    HeaderParts(c, rest);
    Tagged32Back(1, c.ctype, r2);
    Tagged32Back(2, Unsigned(c.id), r3);
    Tagged32Back(3, Unsigned(c.ticks), r4);
    Tagged8Back(26, Bool8(c.isBuff), r5);
    Tagged32Back(27, c.subId, rest);
    CreatedFrom(Header(c) + rest, Got(c.ctype, r2), Got(Unsigned(c.id), r3), Got(Unsigned(c.ticks), r4),
      Got(Bool8(c.isBuff), r5), Got(c.subId, rest));
    MadeBack(c, rest);
  }

  // One property is read, and reading goes on behind it.
  lemma EntryBack(c: Cond, tag: Byte, payload: Bytes, more: Bytes, after: Cond)
    requires tag != ENDS && Prop(c, tag, payload + more) == Read(true, after, more)
    ensures Unserialized(c, Entry(tag, payload) + more) == Unserialized(after, more)
  {
    var s := Entry(tag, payload) + more;
    assert s[0] == tag && s[1..] == payload + more;
    NextProp(c, s, more, after);
  }

  lemma NextProp(c: Cond, s: Bytes, more: Bytes, after: Cond)
    requires s != [] && s[0] != ENDS && Prop(c, s[0], s[1..]) == Read(true, after, more)
    ensures Unserialized(c, s) == Unserialized(after, more)
  {
  }

  lemma SpeedBack(c: Cond, e: Extra, more: Bytes)
    requires c.extra.Speed? && e.Speed?
    ensures Unserialized(c, ExtraBytes(e) + more) == Unserialized(c.(extra := e), more)
  {
    var b1, b2, b3 := Entry(12, e.mina), Entry(13, e.minb), Entry(14, e.maxa);
    var b4 := Entry(15, e.maxb) + more;
    var c1 := c.(extra := c.extra.(delta := e.delta));
    var c2 := c1.(extra := c1.extra.(mina := e.mina));
    var c3 := c2.(extra := c2.extra.(minb := e.minb));
    var c4 := c3.(extra := c3.extra.(maxa := e.maxa));
    Regroup(Entry(11, I32(e.delta)), b1, b2, b3 + Entry(15, e.maxb), more);
    assert b3 + Entry(15, e.maxb) + more == b3 + b4;
    Take32Back(Unsigned(e.delta), b1 + (b2 + (b3 + b4)));
    EntryBack(c, 11, I32(e.delta), b1 + (b2 + (b3 + b4)), c1);
    TakeRawBack(e.mina, b2 + (b3 + b4));
    EntryBack(c1, 12, e.mina, b2 + (b3 + b4), c2);
    TakeRawBack(e.minb, b3 + b4);
    EntryBack(c2, 13, e.minb, b3 + b4, c3);
    TakeRawBack(e.maxa, b4);
    EntryBack(c3, 14, e.maxa, b4, c4);
    TakeRawBack(e.maxb, more);
    EntryBack(c4, 15, e.maxb, more, c.(extra := e));
  }

  lemma NumberBack(c: Cond, tag: Byte, v: Uint32, more: Bytes)
    requires HasNumber(c.extra, tag) && !c.extra.Attributes?
    ensures Unserialized(c, Entry(tag, U32(v)) + more) == Unserialized(c.(extra := WithNumber(c.extra, tag, v)), more)
  {
    Take32Back(v, more);
    EntryBack(c, tag, U32(v), more, c.(extra := WithNumber(c.extra, tag, v)));
  }

  lemma RegenerationBack(c: Cond, e: Extra, more: Bytes)
    requires c.extra.Regeneration? && e.Regeneration?
    ensures Unserialized(c, ExtraBytes(e) + more) == Unserialized(c.(extra := e), more)
  {
    var b1, b2, b3 := Entry(5, U32(e.healthGain)), Entry(6, U32(e.manaTicks)), Entry(7, U32(e.manaGain));
    Regroup(Entry(4, U32(e.healthTicks)), b1, b2, b3, more);
    NumberBack(c, 4, e.healthTicks, b1 + (b2 + (b3 + more)));
    var c1 := c.(extra := WithNumber(c.extra, 4, e.healthTicks));
    NumberBack(c1, 5, e.healthGain, b2 + (b3 + more));
    var c2 := c1.(extra := WithNumber(c1.extra, 5, e.healthGain));
    NumberBack(c2, 6, e.manaTicks, b3 + more);
    NumberBack(c2.(extra := WithNumber(c2.extra, 6, e.manaTicks)), 7, e.manaGain, more);
  }

  lemma SoulBack(c: Cond, e: Extra, more: Bytes)
    requires (c.extra.Soul? && e.Soul?) || (c.extra.SoulBonus? && e.SoulBonus?)
    ensures Unserialized(c, ExtraBytes(e) + more) == Unserialized(c.(extra := e), more)
  {
    var gain, ticks := if e.Soul? then e.soulGain else e.bonusGain, if e.Soul? then e.soulTicks else e.bonusTicks;
    var b1 := Entry(20, U32(ticks)) + more;
    assert ExtraBytes(e) + more == Entry(21, U32(gain)) + b1;
    NumberBack(c, 21, gain, b1);
    NumberBack(c.(extra := WithNumber(c.extra, 21, gain)), 20, ticks, more);
  }

  lemma StaminaBack(c: Cond, e: Extra, more: Bytes)
    requires c.extra.Stamina? && e.Stamina?
    ensures Unserialized(c, ExtraBytes(e) + more) == Unserialized(c.(extra := e), more)
  {
    var b1 := Entry(29, U32(e.staminaTicks)) + more;
    assert ExtraBytes(e) + more == Entry(28, U16(e.staminaGain)) + b1;
    Take16Back(e.staminaGain, b1);
    var c1 := c.(extra := c.extra.(staminaGain := e.staminaGain));
    EntryBack(c, 28, U16(e.staminaGain), b1, c1);
    NumberBack(c1, 29, e.staminaTicks, more);
  }

  lemma ColorBack(c: Cond, color: Byte, more: Bytes)
    requires c.extra.Light?
    ensures Unserialized(c, Entry(16, U32(color)) + more) == Unserialized(c.(extra := c.extra.(color := color)), more)
  {
    assert WithNumber(c.extra, 16, color) == c.extra.(color := color);
    NumberBack(c, 16, color, more);
  }

  lemma LevelBack(c: Cond, level: Byte, more: Bytes)
    requires c.extra.Light?
    ensures Unserialized(c, Entry(17, U32(level)) + more) == Unserialized(c.(extra := c.extra.(level := level)), more)
  {
    assert WithNumber(c.extra, 17, level) == c.extra.(level := level);
    NumberBack(c, 17, level, more);
  }

  lemma LightTimesBack(c: Cond, ticks: Uint32, interval: Uint32, more: Bytes)
    requires c.extra.Light?
    ensures Unserialized(c, Entry(18, U32(ticks)) + (Entry(19, U32(interval)) + more)) ==
      Unserialized(c.(extra := c.extra.(lightTicks := ticks, lightInterval := interval)), more)
  {
    NumberBack(c, 18, ticks, Entry(19, U32(interval)) + more);
    NumberBack(c.(extra := c.extra.(lightTicks := ticks)), 19, interval, more);
  }

  lemma LightBack(c: Cond, e: Extra, more: Bytes)
    requires c.extra.Light? && e.Light?
    ensures Unserialized(c, ExtraBytes(e) + more) == Unserialized(c.(extra := e), more)
  {
    var b0, b1 := Entry(16, U32(e.color)), Entry(17, U32(e.level));
    var b2, b3 := Entry(18, U32(e.lightTicks)), Entry(19, U32(e.lightInterval));
    Regroup(b0, b1, b2, b3, more);
    ColorBack(c, e.color, b1 + (b2 + (b3 + more)));
    var c1 := c.(extra := c.extra.(color := e.color));
    LevelBack(c1, e.level, b2 + (b3 + more));
    LightTimesBack(c1.(extra := c1.extra.(level := e.level)), e.lightTicks, e.lightInterval, more);
  }

  lemma TakeLookBack(o: Look, more: Bytes)
    ensures TakeLook(LookBytes(o) + more) == Got(o, more)
  {
    var s := LookBytes(o) + more;
    var tail := [o.head, o.body, o.legs, o.feet, o.addons, o.padding];
    var t3 := tail + more;
    var t2 := U16(o.lookMount) + t3;
    var t1 := U16(o.lookTypeEx) + t2;
    Regroup(U16(o.lookType), U16(o.lookTypeEx), U16(o.lookMount), tail, more);
    Take16Back(o.lookType, t1);
    Take16Back(o.lookTypeEx, t2);
    Take16Back(o.lookMount, t3);
    DropDrop(s, 2, 2);
    DropDrop(s, 4, 2);
    TakeRawBack(tail, more);
    DropDrop(s, 6, 6);
    assert forall i | 0 <= i < 6 :: s[6 + i] == t3[i] == tail[i];
    assert s[6] == tail[0] && s[7] == tail[1] && s[8] == tail[2] && s[9] == tail[3] && s[10] == tail[4] &&
      s[11] == tail[5];
  }

  lemma TakeIntervalBack(i: Interval, more: Bytes)
    ensures TakeInterval(IntervalBytes(i) + more) == Got(i, more)
  {
    var s := IntervalBytes(i) + more;
    var t2 := I32(i.interval) + more;
    var t1 := I32(i.value) + t2;
    assert s == I32(i.timeLeft) + t1;
    Take32Back(Unsigned(i.timeLeft), t1);
    Take32Back(Unsigned(i.value), t2);
    Take32Back(Unsigned(i.interval), more);
    DropDrop(s, 4, 4);
    DropDrop(s, 8, 4);
  }

  // One interval of a damage condition
  lemma IntervalBack(c: Cond, i: Interval, more: Bytes)
    requires c.extra.Damage?
    ensures Unserialized(c, Entry(10, IntervalBytes(i)) + more) ==
      Unserialized(c.(extra := c.extra.(list := c.extra.list + [i]),
                      ticks := if c.ticks != -1 then Sum32(c.ticks, i.interval) else -1), more)
  {
    TakeIntervalBack(i, more);
    EntryBack(c, 10, IntervalBytes(i), more, c.(extra := c.extra.(list := c.extra.list + [i]),
                      ticks := if c.ticks != -1 then Sum32(c.ticks, i.interval) else -1));
  }

  lemma {:induction false} IntervalsBack(c: Cond, list: seq<Interval>, i: nat, more: Bytes)
    requires c.extra.Damage? && i <= |list| && c.extra.list == list[..i]
    ensures Unserialized(c, IntervalsBytes(list[i..]) + more) ==
      Unserialized(c.(extra := c.extra.(list := list), ticks := Accumulated(c.ticks, list[i..])), more)
    decreases |list| - i
  {
    if i == |list| {
      assert IntervalsBytes(list[i..]) + more == more && list[..i] == list;
    } else {
      var next := IntervalsBytes(list[i + 1..]) + more;
      assert list[i..][1..] == list[i + 1..];
      assert IntervalsBytes(list[i..]) + more == Entry(10, IntervalBytes(list[i])) + next;
      IntervalBack(c, list[i], next);
      assert list[..i] + [list[i]] == list[..i + 1];
      IntervalsBack(c.(extra := c.extra.(list := list[..i + 1]),
                       ticks := if c.ticks != -1 then Sum32(c.ticks, list[i].interval) else -1), list, i + 1, more);
    }
  }

  lemma DelayedBack(c: Cond, delayed: bool, more: Bytes)
    requires c.extra.Damage?
    ensures Unserialized(c, Entry(8, [Bool8(delayed)]) + more) ==
      Unserialized(c.(extra := c.extra.(delayed := delayed)), more)
  {
    assert ([Bool8(delayed)] + more)[1..] == more;
    EntryBack(c, 8, [Bool8(delayed)], more, c.(extra := c.extra.(delayed := delayed)));
  }

  lemma PeriodDamageBack(c: Cond, periodDamage: Int32, more: Bytes)
    requires c.extra.Damage?
    ensures Unserialized(c, Entry(25, I32(periodDamage)) + more) ==
      Unserialized(c.(extra := c.extra.(periodDamage := periodDamage)), more)
  {
    Take32Back(Unsigned(periodDamage), more);
    EntryBack(c, 25, I32(periodDamage), more, c.(extra := c.extra.(periodDamage := periodDamage)));
  }

  lemma DamageBack(c: Cond, e: Extra, more: Bytes)
    requires c.extra.Damage? && e.Damage? && c.extra.list == []
    ensures Unserialized(c, ExtraBytes(e) + more) ==
      Unserialized(c.(extra := e, ticks := Accumulated(c.ticks, e.list)), more)
  {
    var b2 := IntervalsBytes(e.list) + more;
    var b1 := Entry(25, I32(e.periodDamage)) + b2;
    assert ExtraBytes(e) + more == Entry(8, [Bool8(e.delayed)]) + b1;
    DelayedBack(c, e.delayed, b1);
    var c1 := c.(extra := c.extra.(delayed := e.delayed));
    PeriodDamageBack(c1, e.periodDamage, b2);
    assert e.list[0..] == e.list;
    IntervalsBack(c1.(extra := c1.extra.(periodDamage := e.periodDamage)), e.list, 0, more);
  }

  lemma TaggedParts(tag: Byte, values: seq<Int32>, i: nat, more: Bytes)
    requires i < |values|
    ensures TaggedBytes(tag, values[i..]) + more ==
      Entry(tag, I32(values[i])) + (TaggedBytes(tag, values[i + 1..]) + more)
  {
    assert values[i..][1..] == values[i + 1..];
    var first, others := Entry(tag, I32(values[i])), TaggedBytes(tag, values[i + 1..]);
    assert first + others + more == first + (others + more);
  }

  lemma PrefixGrows(a: seq<Int32>, b: seq<Int32>, i: nat)
    requires i < |a| == |b| && a[..i] == b[..i]
    ensures a[i := b[i]][..i + 1] == b[..i + 1]
  {
    assert a[i := b[i]][..i + 1] == a[..i] + [b[i]];
  }

  lemma SkillBack(c: Cond, v: Int32, more: Bytes)
    requires c.extra.Attributes? && c.extra.currentSkill < SKILLS
    ensures var e := c.extra;
      Unserialized(c, Entry(22, I32(v)) + more) ==
      Unserialized(c.(extra := e.(skills := e.skills[e.currentSkill := v], currentSkill := e.currentSkill + 1)), more)
  {
    var e := c.extra;
    Take32Back(Unsigned(v), more);
    EntryBack(c, 22, I32(v), more, c.(extra := e.(skills := e.skills[e.currentSkill := v],
      currentSkill := e.currentSkill + 1)));
  }

  lemma {:induction false} SkillsBack(c: Cond, skills: Skills, i: nat, more: Bytes)
    requires c.extra.Attributes? && i <= SKILLS && c.extra.currentSkill == i && c.extra.skills[..i] == skills[..i]
    ensures Unserialized(c, TaggedBytes(22, skills[i..]) + more) ==
      Unserialized(c.(extra := c.extra.(skills := skills, currentSkill := SKILLS)), more)
    decreases SKILLS - i
  {
    var e := c.extra;
    if i == SKILLS {
      assert TaggedBytes(22, skills[i..]) + more == more;
      assert e.skills[..i] == e.skills && skills[..i] == skills;
    } else {
      var next := TaggedBytes(22, skills[i + 1..]) + more;
      TaggedParts(22, skills, i, more);
      SkillBack(c, skills[i], next);
      PrefixGrows(e.skills, skills, i);
      SkillsBack(c.(extra := e.(skills := e.skills[i := skills[i]], currentSkill := i + 1)), skills, i + 1, more);
    }
  }

  lemma StatBack(c: Cond, v: Int32, more: Bytes)
    requires c.extra.Attributes? && c.extra.currentStat < STATS
    ensures var e := c.extra;
      Unserialized(c, Entry(23, I32(v)) + more) ==
      Unserialized(c.(extra := e.(stats := e.stats[e.currentStat := v], currentStat := e.currentStat + 1)), more)
  {
    var e := c.extra;
    Take32Back(Unsigned(v), more);
    EntryBack(c, 23, I32(v), more, c.(extra := e.(stats := e.stats[e.currentStat := v],
      currentStat := e.currentStat + 1)));
  }

  lemma {:induction false} StatsBack(c: Cond, stats: Stats, i: nat, more: Bytes)
    requires c.extra.Attributes? && i <= STATS && c.extra.currentStat == i && c.extra.stats[..i] == stats[..i]
    ensures Unserialized(c, TaggedBytes(23, stats[i..]) + more) ==
      Unserialized(c.(extra := c.extra.(stats := stats, currentStat := STATS)), more)
    decreases STATS - i
  {
    var e := c.extra;
    if i == STATS {
      assert TaggedBytes(23, stats[i..]) + more == more;
      assert e.stats[..i] == e.stats && stats[..i] == stats;
    } else {
      var next := TaggedBytes(23, stats[i + 1..]) + more;
      TaggedParts(23, stats, i, more);
      StatBack(c, stats[i], next);
      PrefixGrows(e.stats, stats, i);
      StatsBack(c.(extra := e.(stats := e.stats[i := stats[i]], currentStat := i + 1)), stats, i + 1, more);
    }
  }

  lemma AttributesBack(c: Cond, e: Extra, more: Bytes)
    requires c.extra.Attributes? && e.Attributes? && c.extra.currentSkill == c.extra.currentStat == 0
    ensures Unserialized(c, ExtraBytes(e) + more) ==
      Unserialized(c.(extra := e.(currentSkill := SKILLS, currentStat := STATS)), more)
  {
    var b1 := TaggedBytes(23, e.stats) + more;
    assert e.skills[0..] == e.skills && e.stats[0..] == e.stats;
    assert ExtraBytes(e) + more == TaggedBytes(22, e.skills) + b1;
    SkillsBack(c, e.skills, 0, b1);
    StatsBack(c.(extra := c.extra.(skills := e.skills, currentSkill := SKILLS)), e.stats, 0, more);
  }

  lemma ExtraBack(c: Cond, more: Bytes)
    requires WellFormed(c)
    ensures Unserialized(Fresh(c), ExtraBytes(c.extra) + more) == Unserialized(Restored(c), more)
  {
    var f := Fresh(c);
    match c.extra
    case Plain => assert ExtraBytes(c.extra) + more == more;
    case Damage(_, _, _) => DamageBack(f, c.extra, more);
    case Speed(_, _, _, _, _) => SpeedBack(f, c.extra, more);
    case Attributes(_, _, _, _) => AttributesBack(f, c.extra, more);
    case Regeneration(_, _, _, _) => RegenerationBack(f, c.extra, more);
    case Soul(_, _) => SoulBack(f, c.extra, more);
    case SoulBonus(_, _) => SoulBack(f, c.extra, more);
    case Stamina(_, _) => StaminaBack(f, c.extra, more);
    case Outfit(look) =>
      TakeLookBack(look, more);
      EntryBack(f, 24, LookBytes(look), more, c);
    case Light(_, _, _, _) => LightBack(f, c.extra, more);
  }

  lemma EndBack(c: Cond, rest: Bytes)
    ensures Unserialized(c, [ENDS] + rest) == Read(true, c, rest)
  {
    assert ([ENDS] + rest)[1..] == rest;
  }

  // Writing a condition and reading it back gives the condition, and leaves what follows.
  lemma RoundTrip(c: Cond, rest: Bytes)
    requires WellFormed(c)
    ensures var s := Header(c) + (ExtraBytes(c.extra) + [ENDS]) + rest;
      Created(s).Got? && Unserialized(Created(s).value, Created(s).rest) == Read(true, Restored(c), rest)
  {
    var header, extra := Header(c), ExtraBytes(c.extra);
    assert header + (extra + [ENDS]) + rest == header + (extra + ([ENDS] + rest));
    CreatedBack(c, extra + ([ENDS] + rest));
    ExtraBack(c, [ENDS] + rest);
    EndBack(Restored(c), rest);
  }

  function Kept(cs: seq<Cond>): seq<Cond> {
    if cs == [] then [] else (if Persistent(cs[0]) then [Restored(cs[0])] else []) + Kept(cs[1..])
  }

  function Reversed(cs: seq<Cond>): seq<Cond> {
    if cs == [] then [] else Reversed(cs[1..]) + [cs[0]]
  }

  predicate AllWellFormed(cs: seq<Cond>) {
    cs == [] || (WellFormed(cs[0]) && AllWellFormed(cs[1..]))
  }

  // What is saved of a player's conditions is loaded again: every persistent condition and
  // no other, in reverse order, as it was apart from what Restored says.
  lemma {:induction false} LoadSaved(cs: seq<Cond>, before: seq<Cond>)
    requires AllWellFormed(cs)
    ensures Loaded(Saved(cs), before) == Reversed(Kept(cs)) + before
    decreases |cs|
  {
    if cs == [] {
      assert Saved(cs) == [] && Reversed(Kept(cs)) + before == before;
    } else {
      var more := if Persistent(cs[0]) then [Restored(cs[0])] + before else before;
      LoadSaved(cs[1..], more);
      LoadFirst(cs, before, more);
      KeptFirst(cs, before);
    }
  }

  lemma LoadFirst(cs: seq<Cond>, before: seq<Cond>, more: seq<Cond>)
    requires cs != [] && WellFormed(cs[0])
    requires more == if Persistent(cs[0]) then [Restored(cs[0])] + before else before
    ensures Loaded(Saved(cs), before) == Loaded(Saved(cs[1..]), more)
  {
    if Persistent(cs[0]) {
      RoundTrip(cs[0], Saved(cs[1..]));
    } else {
      assert Saved(cs) == Saved(cs[1..]);
    }
  }

  lemma KeptFirst(cs: seq<Cond>, before: seq<Cond>)
    requires cs != []
    ensures Reversed(Kept(cs)) + before ==
      Reversed(Kept(cs[1..])) + if Persistent(cs[0]) then [Restored(cs[0])] + before else before
  {
    var k, c := Kept(cs[1..]), Restored(cs[0]);
    if Persistent(cs[0]) {
      assert Kept(cs) == [c] + k;
      ReversedFirst(c, k, before);
    } else {
      assert Kept(cs) == [] + k == k;
    }
  }

  lemma ReversedFirst(c: Cond, cs: seq<Cond>, before: seq<Cond>)
    ensures Reversed([c] + cs) + before == Reversed(cs) + ([c] + before)
  {
    assert ([c] + cs)[1..] == cs;
  }

  function Sum(list: seq<Interval>): int {
    if list == [] then 0 else list[0].interval + Sum(list[1..])
  }

  // A damage condition comes back with the sum of its intervals for ticks, as long as the
  // intervals are times and their sum is a 32-bit number.
  lemma {:induction false} TicksAreTheIntervals(ticks: Int32, list: seq<Interval>)
    requires ticks >= 0 && (forall i | i in list :: i.interval >= 0) && ticks + Sum(list) < 2147483648
    ensures Accumulated(ticks, list) == ticks + Sum(list) && Sum(list) >= 0
    decreases |list|
  {
    if list != [] {
      assert list[0] in list && forall i | i in list[1..] :: i in list;
      SumIsNatural(list[1..]);
      TicksAreTheIntervals(Sum32(ticks, list[0].interval), list[1..]);
    }
  }

  lemma {:induction false} SumIsNatural(list: seq<Interval>)
    requires forall i | i in list :: i.interval >= 0
    ensures Sum(list) >= 0
  {
    if list != [] {
      assert list[0] in list && forall i | i in list[1..] :: i in list;
      SumIsNatural(list[1..]);
    }
  }

  // ---------- The layout of what is written ----------

  // Numbers are written lowest byte first, negative ones as their 32-bit patterns.
  lemma LowestFirst(v: Int32, u: Uint16)
    ensures var w := if v < 0 then v + 4294967296 else v;
      I32(v) == [w % 256, w / 256 % 256, w / 65536 % 256, w / 16777216]
    ensures U16(u) == [u % 256, u / 256]
  {
    var w := Unsigned(v);
    assert w / 256 / 256 == w / 65536 && w / 256 / 256 / 256 == w / 16777216;
  }

  // The value stands at that place behind its tag.
  predicate StandsAt(s: Bytes, i: nat, tag: Byte, value: Bytes) {
    i + 1 + |value| <= |s| && s[i] == tag && s[i + 1..i + 1 + |value|] == value
  }

  lemma FirstStands(tag: Byte, value: Bytes, rest: Bytes)
    ensures StandsAt(Entry(tag, value) + rest, 0, tag, value)
  {
  }

  lemma StandsFurther(head: Bytes, rest: Bytes, i: nat, tag: Byte, value: Bytes)
    requires StandsAt(rest, i, tag, value)
    ensures StandsAt(head + rest, |head| + i, tag, value)
  {
    var s, j := head + rest, |head| + i;
    assert s[j + 1..j + 1 + |value|] == rest[i + 1..i + 1 + |value|];
  }

  lemma TwoStand(t0: Byte, v0: Bytes, t1: Byte, v1: Bytes, rest: Bytes)
    ensures var s := Entry(t0, v0) + (Entry(t1, v1) + rest);
      StandsAt(s, 0, t0, v0) && StandsAt(s, 1 + |v0|, t1, v1)
  {
    FirstStands(t0, v0, Entry(t1, v1) + rest);
    FirstStands(t1, v1, rest);
    StandsFurther(Entry(t0, v0), Entry(t1, v1) + rest, 0, t1, v1);
  }

  lemma FourStand(t0: Byte, v0: Bytes, t1: Byte, v1: Bytes, t2: Byte, v2: Bytes, t3: Byte, v3: Bytes)
    requires |v0| == |v1| == |v2| == |v3| == 4
    ensures var s := Entry(t0, v0) + (Entry(t1, v1) + (Entry(t2, v2) + Entry(t3, v3)));
      |s| == 20 && StandsAt(s, 0, t0, v0) && StandsAt(s, 5, t1, v1) && StandsAt(s, 10, t2, v2) &&
      StandsAt(s, 15, t3, v3)
  {
    var last := Entry(t2, v2) + Entry(t3, v3);
    TwoStand(t0, v0, t1, v1, last);
    TwoStand(t2, v2, t3, v3, []);
    assert Entry(t2, v2) + (Entry(t3, v3) + []) == last;
    assert Entry(t0, v0) + (Entry(t1, v1) + last) == (Entry(t0, v0) + Entry(t1, v1)) + last;
    StandsFurther(Entry(t0, v0) + Entry(t1, v1), last, 0, t2, v2);
    StandsFurther(Entry(t0, v0) + Entry(t1, v1), last, 5, t3, v3);
  }

  lemma ThreeStand(t0: Byte, v0: Bytes, t1: Byte, v1: Bytes, t2: Byte, v2: Bytes)
    requires |v0| == |v1| == |v2| == 4
    ensures var s := Entry(t0, v0) + (Entry(t1, v1) + Entry(t2, v2));
      |s| == 15 && StandsAt(s, 0, t0, v0) && StandsAt(s, 5, t1, v1) && StandsAt(s, 10, t2, v2)
  {
    TwoStand(t0, v0, t1, v1, Entry(t2, v2));
    TwoStand(t1, v1, t2, v2, []);
    assert Entry(t2, v2) + [] == Entry(t2, v2);
    StandsFurther(Entry(t0, v0), Entry(t1, v1) + Entry(t2, v2), 5, t2, v2);
  }

  lemma HeaderHalves(c: Cond)
    ensures Header(c) ==
      (Entry(1, U32(c.ctype)) + (Entry(2, I32(c.id)) + Entry(3, I32(c.ticks)))) +
      (Entry(26, [Bool8(c.isBuff)]) + Entry(27, U32(c.subId)))
  {
  }

  lemma TailStands(buff: Byte, subId: Bytes)
    requires |subId| == 4
    ensures var s := Entry(26, [buff]) + Entry(27, subId);
      |s| == 7 && StandsAt(s, 0, 26, [buff]) && StandsAt(s, 2, 27, subId)
  {
    TwoStand(26, [buff], 27, subId, []);
    assert Entry(27, subId) + [] == Entry(27, subId);
  }

  // The common fields are written at these places, whatever the condition.
  lemma HeaderLies(c: Cond)
    ensures var s := Header(c);
      |s| == 22 && StandsAt(s, 0, 1, U32(c.ctype)) && StandsAt(s, 5, 2, I32(c.id)) &&
      StandsAt(s, 10, 3, I32(c.ticks)) && StandsAt(s, 15, 26, [if c.isBuff then 1 else 0]) &&
      StandsAt(s, 17, 27, U32(c.subId))
  {
    var head := Entry(1, U32(c.ctype)) + (Entry(2, I32(c.id)) + Entry(3, I32(c.ticks)));
    var tail := Entry(26, [Bool8(c.isBuff)]) + Entry(27, U32(c.subId));
    HeaderHalves(c);
    ThreeStand(1, U32(c.ctype), 2, I32(c.id), 3, I32(c.ticks));
    TailStands(Bool8(c.isBuff), U32(c.subId));
    StandsBefore(head, tail, 0, 1, U32(c.ctype));
    StandsBefore(head, tail, 5, 2, I32(c.id));
    StandsBefore(head, tail, 10, 3, I32(c.ticks));
    StandsFurther(head, tail, 0, 26, [Bool8(c.isBuff)]);
    StandsFurther(head, tail, 2, 27, U32(c.subId));
  }

  // So are the values of the classes that write numbers only.
  lemma SpeedLies(delta: Int32, mina: Float, minb: Float, maxa: Float, maxb: Float)
    ensures var s := ExtraBytes(Speed(delta, mina, minb, maxa, maxb));
      |s| == 25 && StandsAt(s, 0, 11, I32(delta)) && StandsAt(s, 5, 12, mina) && StandsAt(s, 10, 13, minb) &&
      StandsAt(s, 15, 14, maxa) && StandsAt(s, 20, 15, maxb)
  {
    var first, rest := Entry(11, I32(delta)), Entry(12, mina) + (Entry(13, minb) + (Entry(14, maxa) + Entry(15, maxb)));
    FourStand(12, mina, 13, minb, 14, maxa, 15, maxb);
    FirstStands(11, I32(delta), rest);
    StandsFurther(first, rest, 0, 12, mina);
    StandsFurther(first, rest, 5, 13, minb);
    StandsFurther(first, rest, 10, 14, maxa);
    StandsFurther(first, rest, 15, 15, maxb);
  }

  lemma RegenerationLies(healthTicks: Uint32, healthGain: Uint32, manaTicks: Uint32, manaGain: Uint32)
    ensures var s := ExtraBytes(Regeneration(healthTicks, healthGain, manaTicks, manaGain));
      |s| == 20 && StandsAt(s, 0, 4, U32(healthTicks)) && StandsAt(s, 5, 5, U32(healthGain)) &&
      StandsAt(s, 10, 6, U32(manaTicks)) && StandsAt(s, 15, 7, U32(manaGain))
  {
    FourStand(4, U32(healthTicks), 5, U32(healthGain), 6, U32(manaTicks), 7, U32(manaGain));
  }

  lemma LightLies(color: Byte, level: Byte, ticks: Uint32, interval: Uint32)
    ensures var s := ExtraBytes(Light(color, level, ticks, interval));
      |s| == 20 && StandsAt(s, 0, 16, U32(color)) && StandsAt(s, 5, 17, U32(level)) &&
      StandsAt(s, 10, 18, U32(ticks)) && StandsAt(s, 15, 19, U32(interval))
  {
    FourStand(16, U32(color), 17, U32(level), 18, U32(ticks), 19, U32(interval));
  }

  lemma SoulLies(gain: Uint32, ticks: Uint32)
    ensures ExtraBytes(SoulBonus(gain, ticks)) == ExtraBytes(Soul(gain, ticks))
    ensures var s := ExtraBytes(Soul(gain, ticks));
      |s| == 10 && StandsAt(s, 0, 21, U32(gain)) && StandsAt(s, 5, 20, U32(ticks))
  {
    TwoStand(21, U32(gain), 20, U32(ticks), []);
    assert Entry(20, U32(ticks)) + [] == Entry(20, U32(ticks));
  }

  lemma StaminaLies(gain: Uint16, ticks: Uint32)
    ensures var s := ExtraBytes(Stamina(gain, ticks));
      |s| == 8 && StandsAt(s, 0, 28, U16(gain)) && StandsAt(s, 3, 29, U32(ticks))
  {
    TwoStand(28, U16(gain), 29, U32(ticks), []);
    assert Entry(29, U32(ticks)) + [] == Entry(29, U32(ticks));
  }

  lemma OutfitLies(o: Look)
    ensures ExtraBytes(Outfit(o)) ==
      [24, o.lookType % 256, o.lookType / 256, o.lookTypeEx % 256, o.lookTypeEx / 256, o.lookMount % 256,
       o.lookMount / 256, o.head, o.body, o.legs, o.feet, o.addons, o.padding]
  {
  }

  // Each interval is written in thirteen bytes, each skill and each stat in five.
  lemma IntervalStands(i: Interval, rest: Bytes)
    ensures var first := Entry(10, IntervalBytes(i));
      |first| == 13 && StandsAt(first + rest, 0, 10, IntervalBytes(i))
  {
    FirstStands(10, IntervalBytes(i), rest);
  }

  lemma {:induction false} IntervalLies(list: seq<Interval>, i: nat)
    requires i < |list|
    ensures |IntervalsBytes(list)| == 13 * |list|
    ensures StandsAt(IntervalsBytes(list), 13 * i, 10, IntervalBytes(list[i]))
    decreases |list|
  {
    var rest := IntervalsBytes(list[1..]);
    IntervalStands(list[0], rest);
    if |list| > 1 {
      IntervalLies(list[1..], if i > 0 then i - 1 else 0);
      if i > 0 {
        StandsFurther(Entry(10, IntervalBytes(list[0])), rest, 13 * (i - 1), 10, IntervalBytes(list[i]));
      }
    }
  }

  // The three numbers of an interval, in their order
  lemma IntervalIs(i: Interval)
    ensures IntervalBytes(i) == I32(i.timeLeft) + I32(i.value) + I32(i.interval)
  {
  }

  lemma {:induction false} ValueLies(tag: Byte, values: seq<Int32>, i: nat)
    requires i < |values|
    ensures |TaggedBytes(tag, values)| == 5 * |values|
    ensures StandsAt(TaggedBytes(tag, values), 5 * i, tag, I32(values[i]))
    decreases |values|
  {
    var first, rest := Entry(tag, I32(values[0])), TaggedBytes(tag, values[1..]);
    FirstStands(tag, I32(values[0]), rest);
    if |values| > 1 {
      ValueLies(tag, values[1..], if i > 0 then i - 1 else 0);
      if i > 0 {
        StandsFurther(first, rest, 5 * (i - 1), tag, I32(values[i]));
      }
    }
  }

  lemma DamageHead(delayed: Byte, periodDamage: Bytes)
    requires |periodDamage| == 4
    ensures var head := Entry(8, [delayed]) + Entry(25, periodDamage);
      |head| == 7 && StandsAt(head, 0, 8, [delayed]) && StandsAt(head, 2, 25, periodDamage)
  {
    TwoStand(8, [delayed], 25, periodDamage, []);
    assert Entry(25, periodDamage) + [] == Entry(25, periodDamage);
  }

  lemma Associates(a: Bytes, b: Bytes, c: Bytes)
    ensures a + (b + c) == (a + b) + c
  {
  }

  lemma DamageIs(delayed: bool, periodDamage: Int32, list: seq<Interval>) returns (head: Bytes)
    ensures |head| == 7 && StandsAt(head, 0, 8, [Bool8(delayed)]) && StandsAt(head, 2, 25, I32(periodDamage))
    ensures ExtraBytes(Damage(delayed, periodDamage, list)) == head + IntervalsBytes(list)
  {
    var d, p := Entry(8, [Bool8(delayed)]), Entry(25, I32(periodDamage));
    head := d + p;
    DamageHead(Bool8(delayed), I32(periodDamage));
    Associates(d, p, IntervalsBytes(list));
  }

  lemma DamageLies(delayed: bool, periodDamage: Int32, list: seq<Interval>, i: nat)
    requires i < |list|
    ensures var s := ExtraBytes(Damage(delayed, periodDamage, list));
      |s| == 7 + 13 * |list| && StandsAt(s, 0, 8, [if delayed then 1 else 0]) &&
      StandsAt(s, 2, 25, I32(periodDamage)) && StandsAt(s, 7 + 13 * i, 10, IntervalBytes(list[i]))
  {
    var head := DamageIs(delayed, periodDamage, list);
    var rest := IntervalsBytes(list);
    IntervalLies(list, i);
    StandsBefore(head, rest, 0, 8, [Bool8(delayed)]);
    StandsBefore(head, rest, 2, 25, I32(periodDamage));
    StandsFurther(head, rest, 13 * i, 10, IntervalBytes(list[i]));
  }

  lemma AttributesLie(skills: Skills, stats: Stats, a: nat, b: nat, i: nat)
    ensures var s := ExtraBytes(Attributes(skills, stats, a, b));
      |s| == 90 &&
      (i < SKILLS ==> StandsAt(s, 5 * i, 22, I32(skills[i]))) &&
      (i < STATS ==> StandsAt(s, 65 + 5 * i, 23, I32(stats[i])))
  {
    ValueLies(22, skills, if i < SKILLS then i else 0);
    ValueLies(23, stats, if i < STATS then i else 0);
    if i < SKILLS {
      StandsBefore(TaggedBytes(22, skills), TaggedBytes(23, stats), 5 * i, 22, I32(skills[i]));
    }
    if i < STATS {
      StandsFurther(TaggedBytes(22, skills), TaggedBytes(23, stats), 5 * i, 23, I32(stats[i]));
    }
  }

  lemma StandsBefore(head: Bytes, rest: Bytes, i: nat, tag: Byte, value: Bytes)
    requires StandsAt(head, i, tag, value)
    ensures StandsAt(head + rest, i, tag, value)
  {
    assert (head + rest)[i + 1..i + 1 + |value|] == head[i + 1..i + 1 + |value|];
  }

  // What comes back of a list: the conditions that end, with the default id or that of combat,
  // and no others.
  lemma {:induction false} WhichComeBack(cs: seq<Cond>, c: Cond)
    requires AllWellFormed(cs)
    ensures c in Loaded(Saved(cs), []) <==>
      exists i :: 0 <= i < |cs| && cs[i].ticks != -1 && cs[i].id in {-1, 0} && c == Restored(cs[i])
  {
    LoadSaved(cs, []);
    ReversedHolds(Kept(cs), c);
    KeptHolds(cs, c);
    assert Reversed(Kept(cs)) + [] == Reversed(Kept(cs));
  }

  lemma {:induction false} ReversedHolds(cs: seq<Cond>, c: Cond)
    ensures c in Reversed(cs) <==> c in cs
  {
    if cs != [] {
      ReversedHolds(cs[1..], c);
      assert c in cs <==> c == cs[0] || c in cs[1..];
    }
  }

  lemma {:induction false} KeptHolds(cs: seq<Cond>, c: Cond)
    ensures c in Kept(cs) <==>
      exists i :: 0 <= i < |cs| && cs[i].ticks != -1 && cs[i].id in {-1, 0} && c == Restored(cs[i])
  {
    if cs != [] {
      KeptHolds(cs[1..], c);
      if c in Kept(cs[1..]) {
        var i :| 0 <= i < |cs[1..]| && cs[1..][i].ticks != -1 && cs[1..][i].id in {-1, 0} && c == Restored(cs[1..][i]);
        assert cs[i + 1] == cs[1..][i];
      }
      forall i | 0 < i < |cs|
        ensures cs[i] == cs[1..][i - 1]
      {
      }
    }
  }

  // Which types have which class, and with what each starts out
  lemma ClassesExactly(ctype: nat)
    ensures Initial(ctype) == Some(Damage(false, 0, [])) <==>
      ctype in {1, 2, 4, 8, 32768, 1048576, 2097152, 4194304}
    ensures Initial(ctype) == Some(Speed(0, [0, 0, 0, 0], [0, 0, 0, 0], [0, 0, 0, 0], [0, 0, 0, 0])) <==>
      ctype in {16, 32}
    ensures Initial(ctype) == Some(Outfit(Look(0, 0, 0, 0, 0, 0, 0, 0, 0))) <==> ctype == 64
    ensures Initial(ctype) == Some(Light(0, 0, 0, 0)) <==> ctype == 256
    ensures Initial(ctype) == Some(Regeneration(1000, 0, 1000, 0)) <==> ctype == 8192
    ensures Initial(ctype) == Some(Soul(0, 0)) <==> ctype == 16384
    ensures Initial(ctype) == Some(SoulBonus(0, 0)) <==> ctype == 536870912
    ensures Initial(ctype) == Some(Stamina(1, 0)) <==> ctype == 268435456
    ensures Initial(ctype) == Some(Plain) <==>
      ctype in {128, 512, 1024, 2048, 65536, 131072, 262144, 8388608, 16777216, 33554432, 67108864, 134217728,
                1073741824}
    ensures Initial(ctype).Some? && Initial(ctype).value.Attributes? <==> ctype == 524288
    ensures Initial(524288) == Some(Attributes([0, 0, 0, 0, 0, 0, 0, 0, 0, 0, 0, 0, 0], [0, 0, 0, 0, 0], 0, 0))
  {
  }
}
