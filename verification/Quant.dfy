/** Market data shared by the models (internal/quant/data.go). */
module Quant {
  datatype Bar = Bar(openTime: int, open: real, high: real, low: real, close: real, volume: real)

  function Max(a: real, b: real): real {
    if a > b then a else b
  }

  function Min(a: real, b: real): real {
    if a < b then a else b
  }

  function Clip(v: real, lo: real, hi: real): real
    requires lo <= hi
  {
    if v < lo then lo else if v > hi then hi else v
  }
}
