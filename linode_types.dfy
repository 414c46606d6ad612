/**
 * The Linode plan types the plan tables group. A plan's class is one of the eight
 * values of the API's `LinodeTypeClass`; `Unrecognised` stands for any other class
 * string a response might carry at run time, which the type checker cannot exclude.
 */
module LinodeTypes {

  datatype PlanClass =
    | Nanode
    | Standard
    | Dedicated
    | ProDedicated
    | HighMem
    | Gpu
    | Metal
    | Premium
    | Unrecognised(name: string)
  {
    /** One of the eight classes `LinodeTypeClass` names. */
    predicate Recognised() {
      !Unrecognised?
    }
  }

  /** A plan type: its id, its display heading and its class (other fields are carried along untouched). */
  datatype PlanType = PlanType(id: string, heading: string, cls: PlanClass)

  /** Every type's class is one of the eight, as the generic bound `T extends { class: LinodeTypeClass }` demands. */
  ghost predicate AllRecognised(types: seq<PlanType>) {
    forall i :: 0 <= i < |types| ==> types[i].cls.Recognised()
  }

  /** Whether a plan has the given class (the test of a `case` of the class `switch`). */
  function ClassIs(c: PlanClass): PlanType -> bool {
    (t: PlanType) => t.cls == c
  }
}
