/** Result and failure types shared by the stages of the fractal-dimension estimator. */
module Outcomes {
  datatype Option<T> = None | Some(value: T)

  /** The ways `fractal_analysis` stops without producing a fractal dimension. */
  datatype Failure =
    | LogOfZero              // math.log2(L_Max) with every extent zero
    | EmptyHistogramSample   // np.histogramdd given an empty voxel array
    | FirstWindowNotSelected // round(FD, 4) reached before FD was ever assigned
    | NoWindowSelected       // mfs * L_min reached with no window ever evaluated

  datatype Result<T> = Ok(value: T) | Err(failure: Failure)
}
