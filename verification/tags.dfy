/** The tag record produced by the hunt listener, and the three kinds of
    hunt event it hands to the contactless reader (Tag.kt). */
module Tags {
  import opened Base

  /** An immutable value of five nullable fields; equality is structural, as
      for a Kotlin data class. */
  datatype Tag = Tag(
    customerType: Option<string>,
    cardId: Option<Long>,
    peripheral: Option<string>,
    atr: Option<string>,
    readableData: Option<string>)

  /** The sealed class `HuntEventResult`: a payload, an error, or a removal. */
  datatype HuntEventResult<T> =
    | TagResultSuccess(data: T)
    | TagResultError(error: Throwable)
    | CardRemoved

  /** Two tags are equal exactly when their five fields are. */
  lemma TagEquality(t: Tag, u: Tag)
    ensures t == u <==>
      && t.customerType == u.customerType
      && t.cardId == u.cardId
      && t.peripheral == u.peripheral
      && t.atr == u.atr
      && t.readableData == u.readableData
  {
  }

  /** Every hunt event is one of the three variants, and only a success carries a tag. */
  lemma ResultVariants<T>(r: HuntEventResult<T>)
    ensures r.TagResultSuccess? || r.TagResultError? || r.CardRemoved?
    ensures r.TagResultSuccess? ==> !r.TagResultError? && !r.CardRemoved?
    ensures r.TagResultError? ==> !r.CardRemoved?
  {
  }
}
