/** A spot as the app uses it: the record from its prefecture file, the prefecture it came
    from and, once merged, its bloom predictions. */
module SakuraSpots {
  import opened Wrappers
  import opened SakuraSpotSchema
  import opened SakuraSpotPredictSchema

  datatype SakuraSpot = SakuraSpot(spot: SpotInFile, prefecture: Prefecture, predict: Option<PredictSources>) {
    function Id(): string {
      spot.id
    }
  }
}
