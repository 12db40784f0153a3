/** What every component shares. */
module Basics {
  datatype Option<+T> = None | Some(value: T)

  const USIZE_MAX: nat := 0xFFFF_FFFF_FFFF_FFFF

  const PAGE_SIZE: nat := 4096

  const EINVAL := 22

  function Min(a: nat, b: nat): nat { if a <= b then a else b }

  function Max(a: nat, b: nat): nat { if a <= b then b else a }
}
