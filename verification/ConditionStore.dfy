// The streams of fileloader.h and the methods that move conditions through them
// (condition.cpp, iologindata.cpp).
module ConditionStore {

  import opened ConditionCodec
  import opened ConditionTypes

  class PropWriteStream {
    var buffer: Bytes

    constructor ()
      ensures buffer == []
    {
      buffer := [];
    }

    method Write8(v: Byte)
      modifies this
      ensures buffer == old(buffer) + [v]
    {
      buffer := buffer + [v];
    }

    method Write16(v: Uint16)
      modifies this
      ensures buffer == old(buffer) + U16(v)
    {
      buffer := buffer + U16(v);
    }

    method Write32(v: Uint32)
      modifies this
      ensures buffer == old(buffer) + U32(v)
    {
      buffer := buffer + U32(v);
    }

    method WriteRaw(raw: Bytes)
      modifies this
      ensures buffer == old(buffer) + raw
    {
      buffer := buffer + raw;
    }

    method Tag8(tag: Byte, v: Byte)
      modifies this
      ensures buffer == old(buffer) + Entry(tag, [v])
    {
      Write8(tag);
      Write8(v);
    }

    method Tag32(tag: Byte, v: Uint32)
      modifies this
      ensures buffer == old(buffer) + Entry(tag, U32(v))
    {
      Write8(tag);
      Write32(v);
    }

    method TagRaw(tag: Byte, raw: Bytes)
      modifies this
      ensures buffer == old(buffer) + Entry(tag, raw)
    {
      Write8(tag);
      WriteRaw(raw);
    }
  }

  class PropStream {
    const data: Bytes
    var p: nat

    constructor (a: Bytes)
      ensures Valid() && Rest() == a
    {
      data := a;
      p := 0;
    }

    predicate Valid()
      reads this
    {
      p <= |data|
    }

    // What has not been read yet
    function Rest(): Bytes
      requires Valid()
      reads this
    {
      data[p..]
    }

    method Read8() returns (ok: bool, v: Byte)
      requires Valid()
      modifies this
      ensures Valid() && (ok <==> Take8(old(Rest())).Got?)
      ensures if ok then Take8(old(Rest())) == Got(v, Rest()) else p == old(p)
    {
      ok, v := false, 0;
      if |data| - p >= 1 {
        ok, v := true, data[p];
        p := p + 1;
      }
    }

    method Read16() returns (ok: bool, v: Uint16)
      requires Valid()
      modifies this
      ensures Valid() && (ok <==> Take16(old(Rest())).Got?)
      ensures if ok then Take16(old(Rest())) == Got(v, Rest()) else p == old(p)
    {
      ok, v := false, 0;
      if |data| - p >= 2 {
        ok, v := true, Number(data[p], data[p + 1], 0, 0);
        p := p + 2;
      }
    }

    method Read32() returns (ok: bool, v: Uint32)
      requires Valid()
      modifies this
      ensures Valid() && (ok <==> Take32(old(Rest())).Got?)
      ensures if ok then Take32(old(Rest())) == Got(v, Rest()) else p == old(p)
    {
      ok, v := false, 0;
      if |data| - p >= 4 {
        ok, v := true, Number(data[p], data[p + 1], data[p + 2], data[p + 3]);
        p := p + 4;
      }
    }

    method ReadRaw(n: nat) returns (ok: bool, raw: Bytes)
      requires Valid()
      modifies this
      ensures Valid() && (ok <==> TakeRaw(old(Rest()), n).Got?)
      ensures if ok then TakeRaw(old(Rest()), n) == Got(raw, Rest()) else p == old(p)
    {
      ok, raw := false, [];
      if |data| - p >= n {
        ok, raw := true, data[p..p + n];
        assert data[p..][..n] == raw && data[p..][n..] == data[p + n..];
        p := p + n;
      }
    }
  }

  class Condition {
    var ctype: Uint32
    var id: Int8
    var ticks: Int32
    var isBuff: bool
    var subId: Uint32
    var extra: Extra

    constructor (c: Cond)
      ensures Picture() == c
    {
      ctype, id, ticks, isBuff, subId, extra := c.ctype, c.id, c.ticks, c.isBuff, c.subId, c.extra;
    }

    function Picture(): Cond
      reads this
    {
      Cond(ctype, id, ticks, isBuff, subId, extra)
    }

    // ---------- Writing ----------

    method SerializeCommon(w: PropWriteStream)
      modifies w
      ensures w.buffer == old(w.buffer) + Header(Picture())
    {
      w.Tag32(1, ctype);
      w.Tag32(2, Unsigned(id));
      w.Tag32(3, Unsigned(ticks));
      w.Tag8(26, if isBuff then 1 else 0);
      w.Tag32(27, subId);
      Regroup(Entry(1, U32(ctype)), Entry(2, I32(id)), Entry(3, I32(ticks)),
              Entry(26, [Bool8(isBuff)]), Entry(27, U32(subId)));
    }

    method SerializeIntervals(w: PropWriteStream, list: seq<Interval>)
      modifies w
      ensures w.buffer == old(w.buffer) + IntervalsBytes(list)
    {
      for i := 0 to |list|
        invariant w.buffer + IntervalsBytes(list[i..]) == old(w.buffer) + IntervalsBytes(list)
      {
        NextInterval(w.buffer, list, i);
        w.TagRaw(10, IntervalBytes(list[i]));
      }
      assert list[|list|..] == [];
    }

    static lemma NextInterval(b: Bytes, list: seq<Interval>, i: nat)
      requires i < |list|
      ensures b + IntervalsBytes(list[i..]) == b + Entry(10, IntervalBytes(list[i])) + IntervalsBytes(list[i + 1..])
    {
      assert list[i..][1..] == list[i + 1..];
      var first, others := Entry(10, IntervalBytes(list[i])), IntervalsBytes(list[i + 1..]);
      assert b + (first + others) == b + first + others;
    }

    method SerializeValues(w: PropWriteStream, tag: Byte, values: seq<Int32>)
      modifies w
      ensures w.buffer == old(w.buffer) + TaggedBytes(tag, values)
    {
      for i := 0 to |values|
        invariant w.buffer + TaggedBytes(tag, values[i..]) == old(w.buffer) + TaggedBytes(tag, values)
      {
        NextValue(w.buffer, tag, values, i);
        w.Tag32(tag, Unsigned(values[i]));
      }
      assert values[|values|..] == [];
    }

    static lemma NextValue(b: Bytes, tag: Byte, values: seq<Int32>, i: nat)
      requires i < |values|
      ensures b + TaggedBytes(tag, values[i..]) == b + Entry(tag, I32(values[i])) + TaggedBytes(tag, values[i + 1..])
    {
      assert values[i..][1..] == values[i + 1..];
      var first, others := Entry(tag, I32(values[i])), TaggedBytes(tag, values[i + 1..]);
      assert b + (first + others) == b + first + others;
    }

    method SerializeSpeed(w: PropWriteStream)
      requires extra.Speed?
      modifies w
      ensures w.buffer == old(w.buffer) + ExtraBytes(extra)
    {
      w.Tag32(11, Unsigned(extra.delta));
      w.TagRaw(12, extra.mina);
      w.TagRaw(13, extra.minb);
      w.TagRaw(14, extra.maxa);
      w.TagRaw(15, extra.maxb);
      Regroup(Entry(11, I32(extra.delta)), Entry(12, extra.mina), Entry(13, extra.minb), Entry(14, extra.maxa),
              Entry(15, extra.maxb));
    }

    method SerializeFour(w: PropWriteStream, tags: seq<Byte>, values: seq<Uint32>)
      requires |tags| == |values| == 4
      modifies w
      ensures w.buffer == old(w.buffer) + (Entry(tags[0], U32(values[0])) + (Entry(tags[1], U32(values[1])) +
        (Entry(tags[2], U32(values[2])) + Entry(tags[3], U32(values[3])))))
    {
      w.Tag32(tags[0], values[0]);
      w.Tag32(tags[1], values[1]);
      w.Tag32(tags[2], values[2]);
      w.Tag32(tags[3], values[3]);
    }

    method SerializeLook(w: PropWriteStream, look: Look)
      modifies w
      ensures w.buffer == old(w.buffer) + LookBytes(look)
    {
      w.Write16(look.lookType);
      w.Write16(look.lookTypeEx);
      w.Write16(look.lookMount);
      w.WriteRaw([look.head, look.body, look.legs, look.feet, look.addons, look.padding]);
    }

    static lemma Chain(b: Bytes, x: Bytes, y: Bytes, z: Bytes)
      ensures b + x + y + z == b + (x + (y + z)) && b + x + y + z == b + (x + y + z)
    {
    }

    method SerializeDamage(w: PropWriteStream)
      requires extra.Damage?
      modifies w
      ensures w.buffer == old(w.buffer) + ExtraBytes(extra)
    {
      ghost var b := w.buffer;
      w.Tag8(8, if extra.delayed then 1 else 0);
      w.Tag32(25, Unsigned(extra.periodDamage));
      SerializeIntervals(w, extra.list);
      Chain(b, Entry(8, [Bool8(extra.delayed)]), Entry(25, I32(extra.periodDamage)), IntervalsBytes(extra.list));
    }

    method SerializeAttributes(w: PropWriteStream)
      requires extra.Attributes?
      modifies w
      ensures w.buffer == old(w.buffer) + ExtraBytes(extra)
    {
      ghost var b := w.buffer;
      SerializeValues(w, 22, extra.skills);
      SerializeValues(w, 23, extra.stats);
      assert w.buffer == b + (TaggedBytes(22, extra.skills) + TaggedBytes(23, extra.stats));
    }

    method SerializeTwo(w: PropWriteStream, gain: Uint32, gainTicks: Uint32)
      modifies w
      ensures w.buffer == old(w.buffer) + (Entry(21, U32(gain)) + Entry(20, U32(gainTicks)))
    {
      w.Tag32(21, gain);
      w.Tag32(20, gainTicks);
    }

    method SerializeStamina(w: PropWriteStream)
      requires extra.Stamina?
      modifies w
      ensures w.buffer == old(w.buffer) + ExtraBytes(extra)
    {
      w.Write8(28);
      w.Write16(extra.staminaGain);
      w.Tag32(29, extra.staminaTicks);
    }

    method SerializeOutfit(w: PropWriteStream)
      requires extra.Outfit?
      modifies w
      ensures w.buffer == old(w.buffer) + ExtraBytes(extra)
    {
      w.Write8(24);
      SerializeLook(w, extra.look);
    }

    method SerializeExtra(w: PropWriteStream)
      modifies w
      ensures w.buffer == old(w.buffer) + ExtraBytes(extra)
    {
      match extra
      case Plain =>
      case Damage(_, _, _) => SerializeDamage(w);
      case Speed(_, _, _, _, _) => SerializeSpeed(w);
      case Attributes(_, _, _, _) => SerializeAttributes(w);
      case Regeneration(healthTicks, healthGain, manaTicks, manaGain) =>
        SerializeFour(w, [4, 5, 6, 7], [healthTicks, healthGain, manaTicks, manaGain]);
      case Soul(gain, soulTicks) => SerializeTwo(w, gain, soulTicks);
      case SoulBonus(gain, soulTicks) => SerializeTwo(w, gain, soulTicks);
      case Stamina(_, _) => SerializeStamina(w);
      case Outfit(_) => SerializeOutfit(w);
      case Light(color, level, lightTicks, interval) =>
        SerializeFour(w, [16, 17, 18, 19], [color, level, lightTicks, interval]);
    }

    method Serialize(w: PropWriteStream)
      modifies w
      ensures w.buffer == old(w.buffer) + Header(Picture()) + ExtraBytes(extra)
    {
      SerializeCommon(w);
      SerializeExtra(w);
    }

    // ---------- Reading ----------

    method UnserializeCommon(attr: Byte, s: PropStream) returns (ok: bool)
      requires s.Valid()
      modifies this, s
      ensures s.Valid() && Read(ok, Picture(), s.Rest()) == CommonProp(old(Picture()), attr, old(s.Rest()))
    {
      if attr == 1 || attr == 2 || attr == 3 || attr == 27 {
        var v: Uint32;
        ok, v := s.Read32();
        if ok {
          if attr == 1 {
            ctype := v;
          } else if attr == 2 {
            id := IdOf(v);
          } else if attr == 3 {
            ticks := Signed(v);
          } else {
            subId := v;
          }
        }
      } else if attr == 26 {
        var v: Byte;
        ok, v := s.Read8();
        if ok {
          isBuff := v != 0;
        }
      } else {
        ok := attr == ENDS;
      }
    }

    method UnserializeSpeed(attr: Byte, s: PropStream) returns (ok: bool)
      requires s.Valid() && extra.Speed?
      modifies this, s
      ensures s.Valid() && Read(ok, Picture(), s.Rest()) == SpeedProp(old(Picture()), attr, old(s.Rest()))
    {
      if attr == 11 {
        var v: Uint32;
        ok, v := s.Read32();
        if ok {
          extra := extra.(delta := Signed(v));
        }
      } else if 12 <= attr <= 15 {
        var raw: Bytes;
        ok, raw := s.ReadRaw(4);
        if ok {
          if attr == 12 {
            extra := extra.(mina := raw);
          } else if attr == 13 {
            extra := extra.(minb := raw);
          } else if attr == 14 {
            extra := extra.(maxa := raw);
          } else {
            extra := extra.(maxb := raw);
          }
        }
      } else {
        ok := UnserializeCommon(attr, s);
      }
    }

    method UnserializeDamage(attr: Byte, s: PropStream) returns (ok: bool)
      requires s.Valid() && extra.Damage?
      modifies this, s
      ensures s.Valid() && Read(ok, Picture(), s.Rest()) == DamageProp(old(Picture()), attr, old(s.Rest()))
    {
      if attr == 8 {
        var v: Byte;
        ok, v := s.Read8();
        if ok {
          extra := extra.(delayed := v != 0);
        }
      } else if attr == 25 {
        var v: Uint32;
        ok, v := s.Read32();
        if ok {
          extra := extra.(periodDamage := Signed(v));
        }
      } else if attr == 9 {
        var skipped: Bytes;
        ok, skipped := s.ReadRaw(4);
      } else if attr == 10 {
        var damageInfo: Interval;
        ok, damageInfo := ReadInterval(s);
        if ok {
          extra := extra.(list := extra.list + [damageInfo]);
          if ticks != -1 {
            ticks := Sum32(ticks, damageInfo.interval);
          }
        }
      } else {
        ok := UnserializeCommon(attr, s);
      }
    }

    static method ReadInterval(s: PropStream) returns (ok: bool, i: Interval)
      requires s.Valid()
      modifies s
      ensures s.Valid() && (ok <==> TakeInterval(old(s.Rest())).Got?)
      ensures if ok then TakeInterval(old(s.Rest())) == Got(i, s.Rest()) else s.p == old(s.p)
    {
      ghost var t := s.Rest();
      var raw: Bytes;
      ok, raw := s.ReadRaw(12);
      i := Interval(0, 0, 0);
      if ok {
        assert raw[4..] == t[4..12] && raw[8..] == t[8..12];
        i := Interval(Signed(Take32(raw).value), Signed(Take32(raw[4..]).value), Signed(Take32(raw[8..]).value));
      }
    }

    static method ReadLook(s: PropStream) returns (ok: bool, o: Look)
      requires s.Valid()
      modifies s
      ensures s.Valid() && (ok <==> TakeLook(old(s.Rest())).Got?)
      ensures if ok then TakeLook(old(s.Rest())) == Got(o, s.Rest()) else s.p == old(s.p)
    {
      ghost var t := s.Rest();
      var raw: Bytes;
      ok, raw := s.ReadRaw(12);
      o := NAKED;
      if ok {
        assert raw[2..] == t[2..12] && raw[4..] == t[4..12];
        o := Look(Take16(raw).value, Take16(raw[2..]).value, Take16(raw[4..]).value,
                  raw[6], raw[7], raw[8], raw[9], raw[10], raw[11]);
      }
    }

    method UnserializeAttributes(attr: Byte, s: PropStream) returns (ok: bool)
      requires s.Valid() && extra.Attributes?
      requires attr == 22 ==> extra.currentSkill < SKILLS
      requires attr == 23 ==> extra.currentStat < STATS
      modifies this, s
      ensures s.Valid() && Read(ok, Picture(), s.Rest()) == AttributesProp(old(Picture()), attr, old(s.Rest()))
    {
      var v: Uint32;
      if attr == 22 {
        ok, v := s.Read32();
        if ok {
          extra := extra.(skills := extra.skills[extra.currentSkill := Signed(v)],
                          currentSkill := extra.currentSkill + 1);
        }
      } else if attr == 23 {
        ok, v := s.Read32();
        if ok {
          extra := extra.(stats := extra.stats[extra.currentStat := Signed(v)], currentStat := extra.currentStat + 1);
        }
      } else {
        ok := UnserializeCommon(attr, s);
      }
    }

    method UnserializeNumbers(attr: Byte, s: PropStream) returns (ok: bool)
      requires s.Valid()
      modifies this, s
      ensures s.Valid() && Read(ok, Picture(), s.Rest()) == NumberProp(old(Picture()), attr, old(s.Rest()))
    {
      if extra.Stamina? && attr == 28 {
        var v: Uint16;
        ok, v := s.Read16();
        if ok {
          extra := extra.(staminaGain := v);
        }
      } else if HasNumber(extra, attr) {
        var v: Uint32;
        ok, v := s.Read32();
        if ok {
          extra := WithNumber(extra, attr, v);
        }
      } else {
        ok := UnserializeCommon(attr, s);
      }
    }

    method UnserializeOutfit(attr: Byte, s: PropStream) returns (ok: bool)
      requires s.Valid() && extra.Outfit?
      modifies this, s
      ensures s.Valid() && Read(ok, Picture(), s.Rest()) == OutfitProp(old(Picture()), attr, old(s.Rest()))
    {
      if attr == 24 {
        var look: Look;
        ok, look := ReadLook(s);
        if ok {
          extra := Outfit(look);
        }
      } else {
        ok := UnserializeCommon(attr, s);
      }
    }

    method UnserializeProp(attr: Byte, s: PropStream) returns (ok: bool)
      requires s.Valid()
      modifies this, s
      ensures s.Valid() && Read(ok, Picture(), s.Rest()) == Prop(old(Picture()), attr, old(s.Rest()))
    {
      match extra
      case Plain => ok := UnserializeCommon(attr, s);
      case Damage(_, _, _) => ok := UnserializeDamage(attr, s);
      case Speed(_, _, _, _, _) => ok := UnserializeSpeed(attr, s);
      case Attributes(_, _, currentSkill, currentStat) =>
        if (attr == 22 && currentSkill >= SKILLS) || (attr == 23 && currentStat >= STATS) {
          ok := false; // where the program is not defined
        } else {
          ok := UnserializeAttributes(attr, s);
        }
      case Outfit(_) => ok := UnserializeOutfit(attr, s);
      case _ => ok := UnserializeNumbers(attr, s);
    }

    method Unserialize(s: PropStream) returns (ok: bool)
      requires s.Valid()
      modifies this, s
      ensures s.Valid() && Read(ok, Picture(), s.Rest()) == Unserialized(old(Picture()), old(s.Rest()))
    {
      var more, attr := s.Read8();
      while more && attr != ENDS
        invariant s.Valid()
        invariant Unserialized(old(Picture()), old(s.Rest())) ==
          if more then Unserialized(Picture(), [attr] + s.Rest()) else Unserialized(Picture(), s.Rest())
        invariant !more ==> s.Rest() == []
        decreases |s.Rest()|, more
      {
        assert ([attr] + s.Rest())[1..] == s.Rest();
        ok := UnserializeProp(attr, s);
        if !ok {
          return;
        }
        ghost var left := s.Rest();
        more, attr := s.Read8();
        assert more ==> left == [attr] + s.Rest();
      }
      assert more ==> ([attr] + s.Rest())[1..] == s.Rest();
      ok := true;
    }
  
    // Reads a byte behind its tag
    static method Tagged(s: PropStream, tag: Byte) returns (ok: bool)
      requires s.Valid()
      modifies s
      ensures s.Valid()
      ensures ok <==> old(s.Rest()) != [] && old(s.Rest())[0] == tag
      ensures ok ==> s.Rest() == old(s.Rest())[1..]
    {
      var attr: Byte;
      ok, attr := s.Read8();
      ok := ok && attr == tag;
    }

    static method ReadTagged32(s: PropStream, tag: Byte) returns (ok: bool, v: Uint32)
      requires s.Valid()
      modifies s
      ensures s.Valid() && (ok <==> Tagged32(old(s.Rest()), tag).Got?)
      ensures ok ==> Tagged32(old(s.Rest()), tag) == Got(v, s.Rest())
    {
      v := 0;
      ok := Tagged(s, tag);
      if ok {
        ok, v := s.Read32();
      }
    }

    static method ReadTagged8(s: PropStream, tag: Byte) returns (ok: bool, v: Byte)
      requires s.Valid()
      modifies s
      ensures s.Valid() && (ok <==> Tagged8(old(s.Rest()), tag).Got?)
      ensures ok ==> Tagged8(old(s.Rest()), tag) == Got(v, s.Rest())
    {
      v := 0;
      ok := Tagged(s, tag);
      if ok {
        ok, v := s.Read8();
      }
    }

    static method ReadFields(s: PropStream) returns (ok: bool, f: Fields)
      requires s.Valid()
      modifies s
      ensures s.Valid() && (ok <==> TakeFields(old(s.Rest())).Got?)
      ensures ok ==> TakeFields(old(s.Rest())) == Got(f, s.Rest())
    {
      f := Fields(0, 0, 0);
      var ctype, id, ticks: Uint32;
      ok, ctype := ReadTagged32(s, 1);
      if !ok {
        return;
      }
      ok, id := ReadTagged32(s, 2);
      if !ok {
        return;
      }
      ok, ticks := ReadTagged32(s, 3);
      f := Fields(ctype, id, ticks);
    }

    static method ReadTail(s: PropStream) returns (ok: bool, t: Tail)
      requires s.Valid()
      modifies s
      ensures s.Valid() && (ok <==> TakeTail(old(s.Rest())).Got?)
      ensures ok ==> TakeTail(old(s.Rest())) == Got(t, s.Rest())
    {
      t := Tail(0, 0);
      var buff: Byte;
      ok, buff := ReadTagged8(s, 26);
      if !ok {
        return;
      }
      var subId: Uint32;
      ok, subId := ReadTagged32(s, 27);
      t := Tail(buff, subId);
    }

    static method CreateCondition(s: PropStream) returns (c: Condition?)
      requires s.Valid()
      modifies s
      ensures s.Valid() && (c == null <==> Created(old(s.Rest())).Nothing?)
      ensures c != null ==> fresh(c) && Created(old(s.Rest())) == Got(c.Picture(), s.Rest())
    {
      var ok, f := ReadFields(s);
      if !ok {
        return null;
      }
      var t: Tail;
      ok, t := ReadTail(s);
      if !ok {
        return null;
      }
      c := CreateFrom(f.ctype, f.id, f.ticks, t.buff, t.subId, s.Rest());
    }

    static method CreateFrom(ctype: Uint32, id: Uint32, ticks: Uint32, buff: Byte, subId: Uint32, ghost rest: Bytes)
      returns (c: Condition?)
      ensures c == null <==> Made(ctype, id, ticks, buff, subId, rest).Nothing?
      ensures c != null ==> fresh(c) && Made(ctype, id, ticks, buff, subId, rest) == Got(c.Picture(), rest)
    {
      var initial := Initial(ctype);
      if initial.None? {
        return null;
      }
      c := new Condition(Cond(ctype, IdOf(id), if initial.value.Damage? then 0 else Signed(ticks), buff != 0, subId,
                              initial.value));
    }
  }

  ghost function Pictures(conditions: seq<Condition>): (r: seq<Cond>)
    reads conditions
    ensures |r| == |conditions| && forall i | 0 <= i < |r| :: r[i] == conditions[i].Picture()
  {
    seq(|conditions|, i requires 0 <= i < |conditions| reads conditions => conditions[i].Picture())
  }

  lemma SavedNext(b: Bytes, cs: seq<Cond>, i: nat)
    requires i < |cs|
    ensures b + Saved(cs[i..]) ==
      b + (if Persistent(cs[i]) then Header(cs[i]) + ExtraBytes(cs[i].extra) + [ENDS] else []) + Saved(cs[i + 1..])
  {
    assert cs[i..][1..] == cs[i + 1..];
    var first := if Persistent(cs[i]) then Header(cs[i]) + (ExtraBytes(cs[i].extra) + [ENDS]) else [];
    assert first == if Persistent(cs[i]) then Header(cs[i]) + ExtraBytes(cs[i].extra) + [ENDS] else [];
    assert b + (first + Saved(cs[i + 1..])) == b + first + Saved(cs[i + 1..]);
  }

  // One condition is saved, if it is persistent.
  method SaveCondition(condition: Condition, w: PropWriteStream)
    modifies w
    ensures var c := condition.Picture();
      w.buffer == old(w.buffer) + if Persistent(c) then Header(c) + ExtraBytes(c.extra) + [ENDS] else []
  {
    if condition.ticks != -1 && (condition.id == -1 || condition.id == 0) {
      ghost var b := w.buffer;
      condition.Serialize(w);
      w.Write8(ENDS);
      Condition.Chain(b, Header(condition.Picture()), ExtraBytes(condition.extra), [ENDS]);
    }
  }

  // Saving a player's conditions
  method SaveConditions(conditions: seq<Condition>) returns (w: PropWriteStream)
    ensures fresh(w) && w.buffer == Saved(Pictures(conditions))
  {
    w := new PropWriteStream();
    ghost var cs := Pictures(conditions);
    for i := 0 to |conditions|
      invariant fresh(w) && w.buffer + Saved(cs[i..]) == Saved(cs)
    {
      SavedNext(w.buffer, cs, i);
      SaveCondition(conditions[i], w);
    }
    assert cs[|conditions|..] == [];
  }

  // The next condition is created; those that have been read stay as they are.
  method NextCondition(s: PropStream, list: seq<Condition>) returns (next: Condition?, ghost rest: Bytes)
    requires s.Valid()
    modifies s
    ensures s.Valid() && rest == old(s.Rest()) && Pictures(list) == old(Pictures(list))
    ensures next != null ==> fresh(next)
    ensures Created(rest) == if next != null then Got(next.Picture(), s.Rest()) else Nothing
  {
    rest := s.Rest();
    next := Condition.CreateCondition(s);
  }

  // One condition is read; it joins the list if that succeeds.
  method LoadCondition(s: PropStream, condition: Condition, before: seq<Condition>) returns (list: seq<Condition>)
    requires s.Valid() && condition !in before
    modifies s, condition
    ensures s.Valid() && forall c | c in list :: c in before || c == condition
    ensures var r := Unserialized(old(condition.Picture()), old(s.Rest()));
      s.Rest() == r.rest && Pictures(list) == if r.ok then [r.c] + old(Pictures(before)) else old(Pictures(before))
  {
    ghost var pictures := Pictures(before);
    var ok := condition.Unserialize(s);
    assert Pictures(before) == pictures;
    list := if ok then [condition] + before else before;
    assert ok ==> Pictures(list) == [condition.Picture()] + pictures;
  }

  lemma LoadedNext(s: Bytes, c: Cond, rest: Bytes, before: seq<Cond>)
    requires Created(s) == Got(c, rest)
    ensures var r := Unserialized(c, rest);
      Loaded(s, before) == Loaded(r.rest, if r.ok then [r.c] + before else before) && |r.rest| < |s|
  {
  }

  // One turn of the loop that loads
  method LoadTurn(s: PropStream, condition: Condition, before: seq<Condition>, ghost left: Bytes)
    returns (list: seq<Condition>, next: Condition?, ghost rest: Bytes)
    requires s.Valid() && condition !in before && Created(left) == Got(condition.Picture(), s.Rest())
    modifies s, condition
    ensures s.Valid() && (forall c | c in list :: c in before || c == condition) && (next != null ==> fresh(next))
    ensures Created(rest) == if next != null then Got(next.Picture(), s.Rest()) else Nothing
    ensures |rest| < |left| && Loaded(rest, Pictures(list)) == Loaded(left, old(Pictures(before)))
  {
    LoadedNext(left, condition.Picture(), s.Rest(), Pictures(before));
    list := LoadCondition(s, condition, before);
    next, rest := NextCondition(s, list);
  }

  // Loading them: what is pushed in front is read last
  method LoadConditions(stored: Bytes) returns (list: seq<Condition>)
    ensures Pictures(list) == Loaded(stored, [])
  {
    var s := new PropStream(stored);
    list := [];
    ghost var left := s.Rest();
    var condition := Condition.CreateCondition(s);
    while condition != null
      invariant s.Valid() && fresh(s) && forall c | c in list :: fresh(c)
      invariant condition != null ==> fresh(condition) && condition !in list
      invariant Created(left) == if condition != null then Got(condition.Picture(), s.Rest()) else Nothing
      invariant Loaded(left, Pictures(list)) == Loaded(stored, [])
      decreases |left|
    {
      list, condition, left := LoadTurn(s, condition, list, left);
    }
  }

  // What has been saved of a player's conditions is loaded again: every persistent one, as
  // it was written, and no other, in reverse order.
  method SaveAndLoad(conditions: seq<Condition>) returns (list: seq<Condition>)
    requires AllWellFormed(Pictures(conditions))
    ensures Pictures(list) == Reversed(Kept(old(Pictures(conditions))))
  {
    ghost var cs := Pictures(conditions);
    var w := SaveConditions(conditions);
    LoadSaved(cs, []);
    list := LoadConditions(w.buffer);
  }
}
