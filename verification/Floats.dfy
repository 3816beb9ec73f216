/** Float values as the kernel's registers hold them: a real number or minus infinity. */
module Floats {
  datatype Flt = NegInf | Fin(v: real)

  /** fmaxf(m, s) for a finite m. */
  function FMax(m: real, s: Flt): real {
    if s.Fin? && s.v > m then s.v else m
  }
}
