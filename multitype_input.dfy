/** `src/webservices/utilities/multitype_input.rs`: a handler argument that
    accepts an urlencoded form, a JSON body or a multipart form
    (`Either<Form<L>, Either<Json<L>, MultipartForm<R>>>`), flattened to
    `Either<&L, &R>`: the form and the JSON body carry the same payload
    type and both become `Left`. */
module MultitypeInput {
  import opened Common

  /** `EitherInputExtended<L, R>`: `Left` is the urlencoded form, `Right(Left)`
      the JSON body, `Right(Right)` the multipart form. */
  type InputExtended<L, R> = Either<L, Either<L, R>>

  function FromForm<L, R>(x: L): InputExtended<L, R> { Left(x) }
  function FromJson<L, R>(x: L): InputExtended<L, R> { Right(Left(x)) }
  function FromMultipart<L, R>(x: R): InputExtended<L, R> { Right(Right(x)) }

  /** `From<&EitherInputExtendedWrapper<L, R>> for Either<&L, &R>`. */
  function Flatten<L, R>(v: InputExtended<L, R>): (r: Either<L, R>)
    ensures r.Right? <==> v.Right? && v.right.Right?
    ensures r.Left? ==> v == FromForm(r.left) || v == FromJson(r.left)
    ensures r.Right? ==> v == FromMultipart(r.right)
  {
    match v
    case Left(form) => Left(form)
    case Right(Left(json)) => Left(json)
    case Right(Right(multipart)) => Right(multipart)
  }

  /** A form and a JSON body with the same payload flatten alike, and the
      payload comes through unchanged whichever way it arrived. */
  lemma FlattenKeepsPayload<L, R>(x: L, y: R)
    ensures Flatten(FromForm<L, R>(x)) == Left(x)
    ensures Flatten(FromJson<L, R>(x)) == Left(x)
    ensures Flatten(FromMultipart<L, R>(y)) == Right(y)
  {
  }
}
