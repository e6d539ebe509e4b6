/**
 * The numpy arrays the utilities receive: a shape and the elements in
 * row-major order. Only the shape checks and `flatten` of the source are
 * modelled, so the elements are reals whatever the array's dtype.
 */
module Arrays {

  datatype NdArray = NdArray(shape: seq<nat>, flat: seq<real>)

  /** The number of elements an array of this shape holds. */
  function Product(shape: seq<nat>): nat {
    if shape == [] then 1 else shape[0] * Product(shape[1..])
  }

  /** Every numpy array holds as many elements as its shape says. */
  predicate WellShaped(a: NdArray) {
    Product(a.shape) == |a.flat|
  }

  /** `np.array(xs)` of a flat list of floats. */
  function Vector(xs: seq<real>): (a: NdArray)
    ensures WellShaped(a) && a.shape == [|xs|] && a.flat == xs
  {
    NdArray([|xs|], xs)
  }

  /** A one-dimensional array holds exactly its length in elements. */
  lemma VectorLength(a: NdArray)
    requires WellShaped(a) && |a.shape| == 1
    ensures |a.flat| == a.shape[0]
  {
    assert a.shape[1..] == [];
    assert Product(a.shape[1..]) == 1;
  }
}
