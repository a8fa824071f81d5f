/** The metadata Weld keeps for a qualifier or interceptor-binding annotation type: which
    of its members are `@Nonbinding`, and so ignored when two annotations are compared. */
module BindingModels {
  import opened JavaTypes

  const NONBINDING: ClassName := "javax.enterprise.util.Nonbinding"

  /** An annotation member (a method of the annotation type) and the annotations on it. */
  datatype Member = Member(name: string, annotations: set<ClassName>)

  /** The enhanced view of an annotation type: its name and its members. */
  datatype AnnotationType = AnnotationType(name: ClassName, members: set<Member>)

  /** An initialised binding model. `valid` is whatever the inherited annotation-model
      initialisation concluded; that initialisation is not part of this model. */
  datatype BindingModel = BindingModel(
    annotatedAnnotation: AnnotationType,
    nonBindingMembers: set<Member>,
    valid: bool)

  /** `getMembers(annotationClass)`: the members carrying the given annotation. */
  function MembersAnnotatedWith(t: AnnotationType, annotation: ClassName): (r: set<Member>)
    ensures r <= t.members
    ensures forall m :: m in r <==> m in t.members && annotation in m.annotations
  {
    set m | m in t.members && annotation in m.annotations
  }

  /** `initNonBindingMembers`: the empty set when no member is `@Nonbinding`, otherwise a
      fresh set filled with exactly the `@Nonbinding` members. */
  method InitNonBindingMembers(t: AnnotationType) returns (nonBinding: set<Member>)
    ensures nonBinding <= t.members
    ensures forall m :: m in nonBinding <==> m in t.members && NONBINDING in m.annotations
  {
    var enhancedMethods := MembersAnnotatedWith(t, NONBINDING);
    if enhancedMethods == {} {
      return {};
    }
    nonBinding := {};
    var rest := enhancedMethods;
    while rest != {}
      invariant rest <= enhancedMethods
      invariant nonBinding == enhancedMethods - rest
      decreases |rest|
    {
      var m :| m in rest;
      nonBinding := nonBinding + {m};
      rest := rest - {m};
    }
  }

  /** `init`: the non-binding members are computed first, and the inherited initialisation
      `parentInit` runs on a model that already holds them. */
  method Init(t: AnnotationType, parentInit: BindingModel -> bool) returns (model: BindingModel)
    ensures model.annotatedAnnotation == t
    ensures model.nonBindingMembers == MembersAnnotatedWith(t, NONBINDING)
    ensures model.valid == parentInit(BindingModel(t, MembersAnnotatedWith(t, NONBINDING), false))
  {
    var nonBinding := InitNonBindingMembers(t);
    model := BindingModel(t, nonBinding, false);
    model := model.(valid := parentInit(model));
  }

  /** The members whose values take part in comparisons. */
  function BindingMembers(model: BindingModel): set<Member> {
    model.annotatedAnnotation.members - model.nonBindingMembers
  }

  /** A type with no `@Nonbinding` member gets an empty non-binding set, so every member binds. */
  lemma NoNonbindingMeansAllBind(t: AnnotationType, parentInit: BindingModel -> bool, model: BindingModel)
    requires forall m :: m in t.members ==> NONBINDING !in m.annotations
    requires model.annotatedAnnotation == t && model.nonBindingMembers == MembersAnnotatedWith(t, NONBINDING)
    ensures model.nonBindingMembers == {}
    ensures BindingMembers(model) == t.members
  {
  }
}
