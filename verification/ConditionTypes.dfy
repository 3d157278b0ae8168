// The types of conditions, and how many skills and stats a player has (enums.h)
module ConditionTypes {

  const POISON: nat := 1
  const FIRE: nat := 2
  const ENERGY: nat := 4
  const BLEEDING: nat := 8
  const HASTE: nat := 16
  const PARALYZE: nat := 32
  const OUTFIT: nat := 64
  const INVISIBLE: nat := 128
  const LIGHT: nat := 256
  const MANASHIELD: nat := 512
  const INFIGHT: nat := 1024
  const DRUNK: nat := 2048
  const REGENERATION: nat := 8192
  const SOUL: nat := 16384
  const DROWN: nat := 32768
  const MUTED: nat := 65536
  const CHANNELMUTEDTICKS: nat := 131072
  const YELLTICKS: nat := 262144
  const ATTRIBUTES: nat := 524288
  const FREEZING: nat := 1048576
  const DAZZLED: nat := 2097152
  const CURSED: nat := 4194304
  const EXHAUST_COMBAT: nat := 8388608
  const EXHAUST_HEAL: nat := 16777216
  const PACIFIED: nat := 33554432
  const SPELLCOOLDOWN: nat := 67108864
  const SPELLGROUPCOOLDOWN: nat := 134217728
  const STAMINAREGEN: nat := 268435456
  const SOULBONUS: nat := 536870912
  const EXHAUST: nat := 1073741824

  const SKILLS: nat := 13 // SKILL_LAST + 1
  const STATS: nat := 5 // STAT_LAST + 1
}
