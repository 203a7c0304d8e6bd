/** The sizes the memory manager is built with.  Everything below holds for any sizes that fit. */
module Layout {

  /** Pages of a table (and frames of the machine), and pages of the kernel, of the user code and of
      the user data. */
  datatype Sizes = Sizes(total: nat, kernel: nat, code: nat, data: nat)

  /** The sizes of the kernel as it is. */
  const ZEOS := Sizes(1024, 256, 8, 20)

  /** The kernel's pages are even in number, as alloc_frame looks at every second frame, and the first
      process fits. */
  predicate Fits(s: Sizes) {
    && s.kernel % 2 == 0 && s.total % 2 == 0 && s.kernel > 0 && s.code > 0 && s.data > 0
    && s.kernel + 2 * (s.code + s.data) <= s.total
  }

  type Fitting = s: Sizes | Fits(s) witness ZEOS

  /** Any sizes that fit. */
  const SIZES: Fitting

  const TOTAL_PAGES := SIZES.total
  const NUM_PAG_KERNEL := SIZES.kernel
  const NUM_PAG_CODE := SIZES.code
  const NUM_PAG_DATA := SIZES.data
  const PAG_LOG_INIT_CODE := NUM_PAG_KERNEL
  const PAG_LOG_INIT_DATA := PAG_LOG_INIT_CODE + NUM_PAG_CODE
  const FIRST_FREE_PAGE := NUM_PAG_KERNEL + NUM_PAG_CODE + NUM_PAG_DATA

  /** The layout of the kernel as it is. */
  lemma ZeosLayout()
    requires SIZES == ZEOS
    ensures TOTAL_PAGES == 1024 && NUM_PAG_KERNEL == 256 && NUM_PAG_CODE == 8 && NUM_PAG_DATA == 20
    ensures PAG_LOG_INIT_CODE == 256 && PAG_LOG_INIT_DATA == 264 && FIRST_FREE_PAGE == 284
  {
  }
}
