/** The order of texts by their characters. */
module Texts {
  predicate TextAtMost(a: string, b: string) {
    a == "" || (b != "" && (a[0] < b[0] || (a[0] == b[0] && TextAtMost(a[1..], b[1..]))))
  }

  lemma TextOrderTotal(a: string, b: string)
    ensures TextAtMost(a, b) || TextAtMost(b, a)
  {
  }

  lemma TextOrderAntisymmetric(a: string, b: string)
    requires TextAtMost(a, b) && TextAtMost(b, a)
    ensures a == b
  {
  }

  lemma TextOrderTransitive(a: string, b: string, c: string)
    requires TextAtMost(a, b) && TextAtMost(b, c)
    ensures TextAtMost(a, c)
  {
  }
}
