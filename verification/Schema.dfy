/**
 Message metadata: version ranges, field kinds, the tree of fields of a message, and
 the rule by which a field becomes an optional member of the generated structure.
 */
module Schema {
  import opened Wire

  const I16_MAX := 0x7fff

  datatype VersionRange = VersionRange(start: int, end: int) {

    predicate Within(version: int) {
      start <= version <= end
    }

    predicate IsMandatory(parent: Option<VersionRange>) {
      if parent.None? then start == 0 && end == I16_MAX
      else if parent.value.start > start then end == parent.value.end
      else start == parent.value.start && end == parent.value.end
    }
  }

  /** A mandatory field is present in every version its parent is. */
  lemma MandatoryIsPresent(range: VersionRange, parent: Option<VersionRange>, version: int)
    requires range.IsMandatory(parent)
    requires 0 <= version <= I16_MAX
    requires parent.Some? ==> parent.value.Within(version)
    ensures range.Within(version)
  {}

  /** A field is mandatory exactly if it came no later than its parent and ends with it, or is in every version. */
  lemma MandatoryIff(range: VersionRange, parent: VersionRange)
    ensures range.IsMandatory(Some(parent)) <==> range.start <= parent.start && range.end == parent.end
    ensures range.IsMandatory(None) <==> range == VersionRange(0, 0x7FFF)
  {}

  /** The primitive kinds that occupy a fixed number of bytes. */
  datatype Prim = Bool | Int8 | Int16 | Int32 | Int64 | Uint16 | Float64 | Uuid

  /** A kind without its sequence marker. */
  datatype Elem = Fixed(prim: Prim) | Text | Blob | Records | Structure(name: string)

  datatype Kind = One(elem: Elem) | Many(elem: Elem)

  /**
   The metadata of one field. `common` tells that its structure is declared once for the
   whole message rather than within the field.
   */
  datatype FieldMeta = FieldMeta(
    version: VersionRange,
    nullable: Option<VersionRange>,
    kind: Kind,
    common: bool,
    fields: Fields)
  {
    predicate IsNullable(v: int) {
      nullable.Some? && nullable.value.Within(v)
    }

    predicate IsSequence() {
      kind.Many?
    }

    predicate IsStructure() {
      (kind.Many? && kind.elem.Structure?) || fields.Field?
    }

    predicate IsString() {
      kind == One(Text)
    }

    predicate IsRecords() {
      kind == One(Records)
    }

    /** The version range the members of this field's structure are compared with. */
    function Inside(): Option<VersionRange> {
      if common then None else Some(version)
    }

    /** Is the field an Option in the generated structure? */
    predicate IsOptional(parent: Option<VersionRange>) {
      kind.Many? || nullable.Some? || !version.IsMandatory(parent)
    }

    /** Structures have fields and nothing else has; record frames are single. */
    predicate Proper() {
      match kind.elem
      case Structure(_) => fields.Field? && fields.Proper()
      case Records => fields.End? && kind.One?
      case _ => fields.End?
    }
  }

  /** The named fields of a message or structure, in order. */
  datatype Fields = End | Field(name: string, meta: FieldMeta, next: Fields) {

    predicate Proper() {
      Field? ==> meta.Proper() && next.Proper()
    }

    function Find(wanted: string): Option<FieldMeta> {
      if End? then None
      else if name == wanted then Some(meta)
      else next.Find(wanted)
    }

    function Length(): nat {
      if End? then 0 else 1 + next.Length()
    }
  }

  datatype MessageMeta = MessageMeta(name: string, flexible: VersionRange, fields: Fields) {
    predicate IsFlexible(version: int) {
      flexible.Within(version)
    }
  }
}
