/** The icon size given with `-s`, clamped after the arguments are
    parsed: to 16..48 in the menus and the dmenu list, to 16..96 in the
    grid. */
module IconSize {
  const MinSize := 16
  const MenuMaxSize := 48
  const GridMaxSize := 96

  /** `if args.s < lo: args.s = lo elif args.s > hi: args.s = hi`. */
  function Clamped(s: int, lo: int, hi: int): (r: int)
    requires lo <= hi
    ensures lo <= r <= hi
    ensures lo <= s <= hi ==> r == s
    ensures s < lo ==> r == lo
    ensures s > hi ==> r == hi
  {
    if s < lo then lo else if s > hi then hi else s
  }

  function MenuIconSize(s: int): (r: int)
    ensures MinSize <= r <= MenuMaxSize
  {
    Clamped(s, MinSize, MenuMaxSize)
  }

  function GridIconSize(s: int): (r: int)
    ensures MinSize <= r <= GridMaxSize
  {
    Clamped(s, MinSize, GridMaxSize)
  }

  /** Clamping twice is clamping once, and a larger size never gives a
      smaller icon. */
  lemma ClampedMeaning(s: int, t: int, lo: int, hi: int)
    requires lo <= hi
    ensures Clamped(Clamped(s, lo, hi), lo, hi) == Clamped(s, lo, hi)
    ensures s <= t ==> Clamped(s, lo, hi) <= Clamped(t, lo, hi)
  {
  }
}
