/**
 * The `galaxy_object_type` Postgres enum (tg_space_game/src/schema/types.rs):
 * the three kinds of galaxy object and their text encoding on the wire.
 */
module SchemaTypes {
  import opened Wrappers

  newtype byte = b: int | 0 <= b < 256

  datatype GalaxyObjectType = System | Sector | SectorFuture

  /** Diesel's `IsNull` answer from `to_sql`. */
  datatype IsNull = Yes | No

  /** The two ways `from_sql` fails: `not_none!` on a NULL, and an unknown label. */
  datatype DeserializeError = UnexpectedNull | UnrecognizedVariant

  /** The bytes of an ASCII string literal such as b"system". */
  function Ascii(s: string): (r: seq<byte>)
    requires forall i :: 0 <= i < |s| ==> s[i] as int < 128
    ensures |r| == |s|
    ensures forall i :: 0 <= i < |s| ==> r[i] as int == s[i] as int
  {
    seq(|s|, i requires 0 <= i < |s| => s[i] as int as byte)
  }

  const SYSTEM_LABEL: seq<byte> := Ascii("system")
  const SECTOR_LABEL: seq<byte> := Ascii("sector")
  const SECTOR_FUTURE_LABEL: seq<byte> := Ascii("sector_future")

  /** The label `to_sql` writes for each kind. */
  function Label(t: GalaxyObjectType): seq<byte>
  {
    match t
    case System => SYSTEM_LABEL
    case Sector => SECTOR_LABEL
    case SectorFuture => SECTOR_FUTURE_LABEL
  }

  /**
   * `to_sql`: appends the kind's label to the output buffer `out` and
   * reports a non-null value. What it appends decodes back to `t`.
   */
  function ToSql(t: GalaxyObjectType, out: seq<byte>): (r: (seq<byte>, IsNull))
    ensures r.1 == No
    ensures |out| <= |r.0| && r.0[..|out|] == out
    ensures FromSql(Some(r.0[|out|..])) == Ok(t)
  {
    LabelsDistinct();
    assert (out + Label(t))[|out|..] == Label(t);
    (out + Label(t), No)
  }

  /**
   * `from_sql`: NULL is refused, each of the three labels decodes to its
   * kind, and every other byte string is refused.
   */
  function FromSql(bytes: Option<seq<byte>>): (r: Result<GalaxyObjectType, DeserializeError>)
    ensures bytes.None? <==> r == Err(UnexpectedNull)
    ensures r.Ok? ==> bytes == Some(Label(r.value))
    ensures r.Err? && bytes.Some? ==> r == Err(UnrecognizedVariant) && forall t :: bytes.value != Label(t)
  {
    match bytes
    case None => Err(UnexpectedNull)
    case Some(b) =>
      if b == SYSTEM_LABEL then Ok(System)
      else if b == SECTOR_LABEL then Ok(Sector)
      else if b == SECTOR_FUTURE_LABEL then Ok(SectorFuture)
      else Err(UnrecognizedVariant)
  }

  /** The three labels are pairwise different. */
  lemma LabelsDistinct()
    ensures SYSTEM_LABEL != SECTOR_LABEL
    ensures SYSTEM_LABEL != SECTOR_FUTURE_LABEL
    ensures SECTOR_LABEL != SECTOR_FUTURE_LABEL
  {
    assert SYSTEM_LABEL[1] != SECTOR_LABEL[1];
    assert |SYSTEM_LABEL| != |SECTOR_FUTURE_LABEL|;
    assert |SECTOR_LABEL| != |SECTOR_FUTURE_LABEL|;
  }

  /** Decoding an encoded kind gives the kind back. */
  lemma RoundTrip(t: GalaxyObjectType)
    ensures FromSql(Some(Label(t))) == Ok(t)
  {
    LabelsDistinct();
  }

  /** Distinct kinds are written as distinct byte strings. */
  lemma LabelInjective(t1: GalaxyObjectType, t2: GalaxyObjectType)
    ensures Label(t1) == Label(t2) <==> t1 == t2
  {
    LabelsDistinct();
  }
}
