/** Widths of the machine's numbers, and the kernel's error numbers. */
module Machine {
  const TWO31: nat := 0x8000_0000
  const TWO32: nat := 0x1_0000_0000
  const TWO64: nat := 0x1_0000_0000_0000_0000

  type U32 = n: nat | n < TWO32
  type U64 = n: nat | n < TWO64
  type Byte = b: nat | b < 256

  const EPERM: int := 1
  const ENOMEM: int := 12
  const EFAULT: int := 14
  const EINVAL: int := 22

  function Min(a: nat, b: nat): nat {
    if a < b then a else b
  }

  function Max(a: nat, b: nat): nat {
    if a > b then a else b
  }
}
