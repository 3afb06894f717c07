/**
 * A game item: a name and a description, fixed at construction. The Java
 * class keeps both in private fields and offers only getters, so the model
 * is an immutable datatype whose field selectors `name` and `description`
 * play the part of `getName` and `getDescription`.
 */
module Items {

  datatype Item = Item(name: string, description: string)

  /** The constructor keeps both strings verbatim: no trimming, no case normalisation. */
  function Make(name: string, description: string): (it: Item)
    ensures it.name == name
    ensures it.description == description
  {
    Item(name, description)
  }

  /** Two constructed items are the same value exactly when they were built from the same strings. */
  lemma MakeInjective(n1: string, d1: string, n2: string, d2: string)
    ensures Make(n1, d1) == Make(n2, d2) <==> n1 == n2 && d1 == d2
  {
  }
}
