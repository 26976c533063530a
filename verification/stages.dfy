/**
 * The stage registry of the procurement workflow: nine stages in a fixed
 * order, from "iniciacao" to "finalizado", and the successor function the
 * process detail view uses to offer the one legal next stage.
 */
module Stages {
  import opened Wrappers

  /** The registered stages, in declaration order. */
  datatype Stage =
    | Iniciacao
    | Especificacao
    | AnaliseContratos
    | AnaliseJuridica
    | Autorizacao
    | Licitacao
    | Homologacao
    | Contratacao
    | Finalizado

  /** The stage id stored on records. */
  function Id(s: Stage): string {
    match s
    case Iniciacao => "iniciacao"
    case Especificacao => "especificacao"
    case AnaliseContratos => "analise_contratos"
    case AnaliseJuridica => "analise_juridica"
    case Autorizacao => "autorizacao"
    case Licitacao => "licitacao"
    case Homologacao => "homologacao"
    case Contratacao => "contratacao"
    case Finalizado => "finalizado"
  }

  /** The label shown for a stage. */
  function Label(s: Stage): string {
    match s
    case Iniciacao => "Iniciação"
    case Especificacao => "Especificação Técnica"
    case AnaliseContratos => "Análise de Contratos"
    case AnaliseJuridica => "Análise Jurídica"
    case Autorizacao => "Autorização"
    case Licitacao => "Licitação"
    case Homologacao => "Homologação"
    case Contratacao => "Contratação"
    case Finalizado => "Finalizado"
  }

  /** Label shown for a stage the registry does not know. */
  const UnknownLabel: string := "Desconhecida"

  /** The registry order. */
  const StageOrder: seq<Stage> := [Iniciacao, Especificacao, AnaliseContratos, AnaliseJuridica,
                                   Autorizacao, Licitacao, Homologacao, Contratacao, Finalizado]

  const First: Stage := Iniciacao
  const Terminal: Stage := Finalizado

  /** The ids of `stages`, in order. */
  function Ids(stages: seq<Stage>): (r: seq<string>)
    ensures |r| == |stages|
    ensures forall i :: 0 <= i < |stages| ==> r[i] == Id(stages[i])
  {
    if |stages| == 0 then [] else [Id(stages[0])] + Ids(stages[1..])
  }

  /** The id list the detail view indexes into: the registry's keys in order. */
  function StageIds(): (r: seq<string>)
    ensures |r| == |StageOrder|
    ensures forall i :: 0 <= i < |r| ==> r[i] == Id(StageOrder[i])
  {
    Ids(StageOrder)
  }

  /** The id list, written out. */
  lemma StageIdsInOrder()
    ensures StageIds() == ["iniciacao", "especificacao", "analise_contratos", "analise_juridica",
                           "autorizacao", "licitacao", "homologacao", "contratacao", "finalizado"]
  {
  }

  predicate Distinct<T(==)>(xs: seq<T>) {
    forall i, j :: 0 <= i < j < |xs| ==> xs[i] != xs[j]
  }

  /** Every stage occurs in the registry order. */
  lemma AllStagesListed()
    ensures forall s: Stage :: s in StageOrder
  {
    forall s: Stage
      ensures s in StageOrder
    {
      assert StageOrder[Position(s)] == s;
    }
  }

  /** Nine stages, each once, and nine distinct ids. */
  lemma RegistryShape()
    ensures |StageOrder| == 9
    ensures forall s: Stage :: s in StageOrder
    ensures Distinct(StageOrder)
    ensures Distinct(StageIds())
  {
    AllStagesListed();
    IdsDistinct();
  }

  /** No id occurs twice in the id list. */
  lemma IdsDistinct()
    ensures Distinct(StageIds())
  {
    var ids := StageIds();
    forall i, j | 0 <= i < j < |ids|
      ensures ids[i] != ids[j]
    {
      IdInjective(StageOrder[i], StageOrder[j]);
    }
  }

  /** Position of a stage in the registry order. */
  function Position(s: Stage): (r: nat)
    ensures r < |StageOrder| && StageOrder[r] == s
  {
    match s
    case Iniciacao => 0
    case Especificacao => 1
    case AnaliseContratos => 2
    case AnaliseJuridica => 3
    case Autorizacao => 4
    case Licitacao => 5
    case Homologacao => 6
    case Contratacao => 7
    case Finalizado => 8
  }

  /** Positions are exactly the indices of the order. */
  lemma PositionOfIndex(i: int)
    requires 0 <= i < |StageOrder|
    ensures Position(StageOrder[i]) == i
  {
  }

  /** Distinct stages have distinct ids. */
  lemma IdInjective(a: Stage, b: Stage)
    ensures Id(a) == Id(b) ==> a == b
  {
    if Id(a) == Id(b) {
      assert |Id(a)| == |Id(b)| && Id(a)[0] == Id(b)[0] && Id(a)[8] == Id(b)[8];
    }
  }

  /** The first stage of `stages` whose id is `id`, if any. */
  function LookupIn(stages: seq<Stage>, id: string): (r: Option<Stage>)
    ensures r.Some? ==> Id(r.value) == id && r.value in stages
    ensures r.None? <==> forall s :: s in stages ==> Id(s) != id
  {
    if |stages| == 0 then None
    else if Id(stages[0]) == id then Some(stages[0])
    else LookupIn(stages[1..], id)
  }

  /** The registry lookup by id: the stage whose id is `id`, if any. */
  function Lookup(id: string): (r: Option<Stage>)
    ensures r.Some? ==> Id(r.value) == id
    ensures r.None? ==> forall s: Stage :: Id(s) != id
  {
    AllStagesListed();
    LookupIn(StageOrder, id)
  }

  /** Looking up a stage's own id finds that stage: ids identify stages. */
  lemma LookupId(s: Stage)
    ensures Lookup(Id(s)) == Some(s)
  {
    AllStagesListed();
    IdInjective(s, Lookup(Id(s)).value);
  }

  /**
   * A stage field as stored on a record or history entry: a registered id,
   * or any other string kept as it is.
   */
  datatype StageRef = Known(stage: Stage) | Unknown(raw: string)

  /** Read a stored stage string. */
  function Parse(raw: string): (r: StageRef)
    ensures r.Known? ==> Id(r.stage) == raw
    ensures r.Unknown? ==> r.raw == raw && forall s: Stage :: Id(s) != raw
  {
    match Lookup(raw)
    case Some(s) => Known(s)
    case None => Unknown(raw)
  }

  /** A stored string is read as a registered stage exactly when it is in the id list. */
  lemma ParseKnownIff(raw: string)
    ensures Parse(raw).Known? <==> raw in StageIds()
  {
    var r := Parse(raw);
    if r.Known? {
      assert StageIds()[Position(r.stage)] == raw;
    }
  }

  /** A stage's own id is non-empty and reads back as that stage. */
  lemma ParseId(s: Stage)
    ensures Id(s) != "" && Parse(Id(s)) == Known(s)
  {
    LookupId(s);
  }

  /** The string a stage field holds. */
  function Raw(r: StageRef): string {
    match r
    case Known(s) => Id(s)
    case Unknown(raw) => raw
  }

  /** Reading a stored string and writing it back gives the same string. */
  lemma RawParse(raw: string)
    ensures Raw(Parse(raw)) == raw
  {
  }

  /**
   * Position of a stage field in the id list, -1 when the registry does
   * not know it; this is the index the detail view computes.
   */
  function Index(r: StageRef): (i: int)
    ensures -1 <= i < |StageOrder|
    ensures i == -1 <==> r.Unknown?
    ensures r.Known? ==> StageOrder[i] == r.stage
  {
    match r
    case Known(s) => Position(s)
    case Unknown(_) => -1
  }

  /**
   * Position of `x` in `xs`, or -1 when it does not occur: the first
   * occurrence, as an array's `indexOf` reports it.
   */
  function IndexOf<T(==)>(xs: seq<T>, x: T): (r: int)
    ensures -1 <= r < |xs|
    ensures r == -1 <==> x !in xs
    ensures 0 <= r ==> xs[r] == x && forall j :: 0 <= j < r ==> xs[j] != x
  {
    if |xs| == 0 then -1
    else if xs[0] == x then 0
    else
      var k := IndexOf(xs[1..], x);
      if k == -1 then -1 else k + 1
  }

  /** In a sequence without repetitions, `IndexOf` inverts indexing. */
  lemma IndexOfDistinct<T>(xs: seq<T>, k: int)
    requires Distinct(xs)
    requires 0 <= k < |xs|
    ensures IndexOf(xs, xs[k]) == k
  {
  }

  /**
   * `Index` agrees with searching the id list for the stored string, for
   * every string, including ones the registry does not know.
   */
  lemma IndexIsIndexOf(raw: string)
    ensures Index(Parse(raw)) == IndexOf(StageIds(), raw)
  {
    var r := Parse(raw);
    if r.Known? {
      RegistryShape();
      IndexOfDistinct(StageIds(), Position(r.stage));
    }
  }

  /** Label used in the process list: the registered label, or "Desconhecida". */
  function DisplayLabel(r: StageRef): (shown: string)
    ensures r.Known? ==> shown == Label(r.stage)
    ensures r.Unknown? ==> shown == UnknownLabel
  {
    match r
    case Known(s) => Label(s)
    case Unknown(_) => UnknownLabel
  }

  /**
   * A stored stage string is shown as "Desconhecida" exactly when it is not
   * in the id list; no registered stage carries that label.
   */
  lemma DisplayLabelOfStored(raw: string)
    ensures DisplayLabel(Parse(raw)) == UnknownLabel <==> raw !in StageIds()
  {
    ParseKnownIff(raw);
    match Parse(raw)
    case Known(s) => LabelNotUnknown(s);
    case Unknown(_) =>
  }

  /** No registered label is the unknown-stage label. */
  lemma LabelNotUnknown(s: Stage)
    ensures Label(s) != UnknownLabel
  {
    assert Label(s)[0] != UnknownLabel[0];
  }

  /**
   * The next stage offered for a record whose stage field is `current`:
   * the id at index + 1, none past the end. An unknown id has index -1, so
   * its successor is the first stage.
   */
  function NextStage(current: StageRef): (r: Option<Stage>)
    ensures r.None? <==> current == Known(Terminal)
    ensures current.Unknown? ==> r == Some(First)
    ensures current.Known? && r.Some? ==> Position(r.value) == Position(current.stage) + 1
  {
    var i := Index(current);
    if i < |StageOrder| - 1 then Some(StageOrder[i + 1]) else None
  }

  /** Every non-terminal stage is followed by the stage right after it in the order. */
  lemma NextOfRegistered(k: int)
    requires 0 <= k < |StageOrder| - 1
    ensures NextStage(Known(StageOrder[k])) == Some(StageOrder[k + 1])
  {
    PositionOfIndex(k);
  }
}
