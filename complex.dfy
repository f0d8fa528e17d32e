/**
 * Complex numbers, with the two exact operations the running means need:
 * addition and scaling by a real factor.
 */
module Complex {

  datatype Complex = Complex(re: real, im: real)

  /** A real value promoted to a complex one, as numpy does in mixed arithmetic. */
  function FromReal(x: real): Complex
  {
    Complex(x, 0.0)
  }

  function Add(a: Complex, b: Complex): Complex
  {
    Complex(a.re + b.re, a.im + b.im)
  }

  function Scale(a: Complex, k: real): Complex
  {
    Complex(a.re * k, a.im * k)
  }
}
