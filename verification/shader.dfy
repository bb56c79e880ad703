/** The analyser's top-level loop (`analyze_shader`): every external declaration of the
    translation unit is classified in order, the last global `in` declaration decides the
    local size, free uniform variables and blocks are collected in source order, and the
    first declaration that is rejected ends the analysis. */
module Shader {
  import opened Wrappers
  import opened Glsl
  import opened Errors
  import opened LayoutQualifiers
  import opened Declarations

  /** `ShaderIO`: the local size, the free variables and the blocks of a shader. */
  datatype ShaderIO = ShaderIO(localSize: LocalSize, variables: seq<VariableDeclaration>, blocks: seq<BlockDeclaration>)

  /** The state before the first declaration: local size (1, 1, 1), nothing collected. */
  const InitialIO := ShaderIO(DefaultLocalSize, [], [])

  /** Declarations the loop skips: preprocessor directives, function definitions,
      precision declarations and function prototypes. */
  predicate IsIgnored(d: ExternalDeclaration) {
    d.Preprocessor? || d.FunctionDefinition? ||
    (d.DeclarationItem? && (d.declaration.PrecisionDeclaration? || d.declaration.FunctionPrototype?))
  }

  predicate IsGlobal(d: ExternalDeclaration) {
    d.DeclarationItem? && d.declaration.Global?
  }

  function DeclarationStatus(d: ExternalDeclaration): Status {
    match d
    case DeclarationItem(Global(tq, _)) => GlobalStatus(tq)
    case DeclarationItem(InitDeclarators(idl)) => InitDeclaratorListStatus(idl)
    case DeclarationItem(BlockItem(b)) => BlockStatus(b)
    case _ => Accepts
  }

  function DeclarationsStatus(ds: seq<ExternalDeclaration>): Status
    decreases |ds|
  {
    if |ds| == 0 then Accepts
    else Then(DeclarationsStatus(ds[..|ds| - 1]), DeclarationStatus(ds[|ds| - 1]))
  }

  /** One iteration of the loop. */
  function Step(io: ShaderIO, d: ExternalDeclaration): (r: VResult<ShaderIO>)
    requires DeclarationStatus(d) != Aborts
    ensures r.Failure? <==> DeclarationStatus(d) == Rejects
    ensures IsIgnored(d) ==> r == Success(io)
    ensures r.Success? && !IsGlobal(d) ==> r.value.localSize == io.localSize
    ensures r.Success? && IsGlobal(d) ==> r.value.localSize == GlobalLocalSize(d)
    ensures r.Success? && !(d.DeclarationItem? && d.declaration.BlockItem?) ==> r.value.blocks == io.blocks
  {
    match d
    case DeclarationItem(Global(tq, names)) =>
      var localSize :- MatchGlobals(tq, names);
      Success(io.(localSize := localSize))
    case DeclarationItem(InitDeclarators(idl)) =>
      var variable :- MatchInitDeclaratorList(idl);
      Success(if variable.Some? then io.(variables := io.variables + [variable.value]) else io)
    case DeclarationItem(BlockItem(b)) =>
      var block :- MatchBlock(b);
      Success(io.(blocks := io.blocks + [block]))
    case _ => Success(io)
  }

  /** The error of a declaration does not depend on what was collected before it. */
  lemma StepErrorIndependent(io1: ShaderIO, io2: ShaderIO, d: ExternalDeclaration)
    requires DeclarationStatus(d) == Rejects
    ensures Step(io1, d) == Step(io2, d)
  {
  }

  /** `analyze_shader` after parsing: the loop over the external declarations. */
  function AnalyzeShader(ds: seq<ExternalDeclaration>): (r: VResult<ShaderIO>)
    requires DeclarationsStatus(ds) != Aborts
    ensures r.Failure? <==> DeclarationsStatus(ds) == Rejects
    decreases |ds|
  {
    if |ds| == 0 then Success(InitialIO)
    else
      var io :- AnalyzeShader(ds[..|ds| - 1]);
      Step(io, ds[|ds| - 1])
  }

  // ---------------------------------------------------------------------------
  // Reference views of the declarations.

  /** The local size a global declaration states. */
  function GlobalLocalSize(d: ExternalDeclaration): LocalSize
    requires IsGlobal(d)
  {
    LocalSizeOf(LayoutIdsOf(d.declaration.qualifier.qualifiers))
  }

  /** The local size of the last global declaration, or (1, 1, 1) without one. */
  function LastGlobalLocalSize(ds: seq<ExternalDeclaration>): LocalSize
    decreases |ds|
  {
    if |ds| == 0 then DefaultLocalSize
    else if IsGlobal(ds[|ds| - 1]) then GlobalLocalSize(ds[|ds| - 1])
    else LastGlobalLocalSize(ds[..|ds| - 1])
  }

  /** The block declarations, in source order. */
  function BlocksOf(ds: seq<ExternalDeclaration>): seq<Block>
    decreases |ds|
  {
    if |ds| == 0 then []
    else
      var d := ds[|ds| - 1];
      BlocksOf(ds[..|ds| - 1]) + (if d.DeclarationItem? && d.declaration.BlockItem? then [d.declaration.block] else [])
  }

  /** The declarator lists that declare a free uniform variable, in source order. */
  function UniformVariablesOf(ds: seq<ExternalDeclaration>): seq<InitDeclaratorList>
    decreases |ds|
  {
    if |ds| == 0 then []
    else
      var d := ds[|ds| - 1];
      UniformVariablesOf(ds[..|ds| - 1]) +
        (if d.DeclarationItem? && d.declaration.InitDeclarators? && IsUniformVariable(d.declaration.list)
         then [d.declaration.list] else [])
  }

  /** The declarations without the ignored ones. */
  function WithoutIgnored(ds: seq<ExternalDeclaration>): (r: seq<ExternalDeclaration>)
    ensures forall i :: 0 <= i < |r| ==> !IsIgnored(r[i])
    decreases |ds|
  {
    if |ds| == 0 then []
    else
      var d := ds[|ds| - 1];
      WithoutIgnored(ds[..|ds| - 1]) + (if IsIgnored(d) then [] else [d])
  }

  // ---------------------------------------------------------------------------
  // Properties of the loop.

  /** A successful analysis accepted every declaration. */
  lemma {:induction false} AcceptedPrefix(ds: seq<ExternalDeclaration>)
    requires DeclarationsStatus(ds) == Accepts
    ensures forall i :: 0 <= i < |ds| ==> DeclarationStatus(ds[i]) == Accepts
    decreases |ds|
  {
    if |ds| > 0 {
      var p := ds[..|ds| - 1];
      AcceptedPrefix(p);
      forall i | 0 <= i < |ds|
        ensures DeclarationStatus(ds[i]) == Accepts
      {
        if i < |p| {
          assert ds[i] == p[i];
        }
      }
    }
  }

  /** The analysis fails with the error of the first rejected declaration. */
  lemma {:induction false} AnalyzeShaderFirstError(ds: seq<ExternalDeclaration>, k: nat)
    requires k < |ds| && DeclarationStatus(ds[k]) == Rejects
    requires forall i :: 0 <= i < k ==> DeclarationStatus(ds[i]) == Accepts
    ensures DeclarationsStatus(ds) == Rejects
    ensures AnalyzeShader(ds) == Step(InitialIO, ds[k])
    decreases |ds|
  {
    var p := ds[..|ds| - 1];
    if k < |p| {
      forall i | 0 <= i < k
        ensures DeclarationStatus(p[i]) == Accepts
      {
        assert p[i] == ds[i];
      }
      assert p[k] == ds[k];
      AnalyzeShaderFirstError(p, k);
    } else {
      assert p == ds[..k];
      PrefixAccepted(ds, k);
      StepErrorIndependent(AnalyzeShader(p).value, InitialIO, ds[k]);
    }
  }

  /** A prefix of accepted declarations is accepted as a whole. */
  lemma {:induction false} PrefixAccepted(ds: seq<ExternalDeclaration>, k: nat)
    requires k <= |ds|
    requires forall i :: 0 <= i < k ==> DeclarationStatus(ds[i]) == Accepts
    ensures DeclarationsStatus(ds[..k]) == Accepts
    decreases k
  {
    if k > 0 {
      var p := ds[..k];
      assert p[..k - 1] == ds[..k - 1];
      PrefixAccepted(ds, k - 1);
      assert p[k - 1] == ds[k - 1];
    }
  }

  /** The analysed local size follows the reference: that of the last global declaration. */
  lemma {:induction false} AnalyzeShaderLastGlobal(ds: seq<ExternalDeclaration>)
    requires DeclarationsStatus(ds) != Aborts && AnalyzeShader(ds).Success?
    ensures AnalyzeShader(ds).value.localSize == LastGlobalLocalSize(ds)
    decreases |ds|
  {
    if |ds| > 0 {
      var p := ds[..|ds| - 1];
      AnalyzeShaderLastGlobal(p);
      assert AnalyzeShader(ds) == Step(AnalyzeShader(p).value, ds[|ds| - 1]);
    }
  }

  /** Without a global declaration the reference local size is the default. */
  lemma {:induction false} NoGlobalLocalSize(ds: seq<ExternalDeclaration>)
    requires forall i :: 0 <= i < |ds| ==> !IsGlobal(ds[i])
    ensures LastGlobalLocalSize(ds) == DefaultLocalSize
    decreases |ds|
  {
    if |ds| > 0 {
      var p := ds[..|ds| - 1];
      assert forall i :: 0 <= i < |p| ==> p[i] == ds[i];
      NoGlobalLocalSize(p);
    }
  }

  /** The reference local size is that of the global declaration no later one overrides. */
  lemma {:induction false} LastGlobalWins(ds: seq<ExternalDeclaration>, i: nat)
    requires i < |ds| && IsGlobal(ds[i])
    requires forall j :: i < j < |ds| ==> !IsGlobal(ds[j])
    ensures LastGlobalLocalSize(ds) == GlobalLocalSize(ds[i])
    decreases |ds|
  {
    if i < |ds| - 1 {
      var p := ds[..|ds| - 1];
      assert p[i] == ds[i];
      forall j | i < j < |p|
        ensures !IsGlobal(p[j])
      {
        assert p[j] == ds[j];
      }
      LastGlobalWins(p, i);
    }
  }

  /** The last global declaration decides the local size; without any, it is (1, 1, 1). */
  lemma AnalyzeShaderLocalSize(ds: seq<ExternalDeclaration>)
    requires DeclarationsStatus(ds) != Aborts && AnalyzeShader(ds).Success?
    ensures (forall i :: 0 <= i < |ds| ==> !IsGlobal(ds[i])) ==>
      AnalyzeShader(ds).value.localSize == DefaultLocalSize
    ensures forall i :: 0 <= i < |ds| && IsGlobal(ds[i]) && (forall j :: i < j < |ds| ==> !IsGlobal(ds[j])) ==>
      AnalyzeShader(ds).value.localSize == GlobalLocalSize(ds[i])
  {
    AnalyzeShaderLastGlobal(ds);
    if forall i :: 0 <= i < |ds| ==> !IsGlobal(ds[i]) {
      NoGlobalLocalSize(ds);
    }
    forall i | 0 <= i < |ds| && IsGlobal(ds[i]) && (forall j :: i < j < |ds| ==> !IsGlobal(ds[j]))
      ensures AnalyzeShader(ds).value.localSize == GlobalLocalSize(ds[i])
    {
      LastGlobalWins(ds, i);
    }
  }

  /** The blocks are the block declarations, each analysed on its own, in source order. */
  lemma {:induction false} AnalyzeShaderBlocks(ds: seq<ExternalDeclaration>)
    requires DeclarationsStatus(ds) != Aborts && AnalyzeShader(ds).Success?
    ensures var bs, r := BlocksOf(ds), AnalyzeShader(ds).value;
      |r.blocks| == |bs| &&
      forall k :: 0 <= k < |bs| ==> BlockStatus(bs[k]) == Accepts && r.blocks[k] == MatchBlock(bs[k]).value
    decreases |ds|
  {
    if |ds| > 0 {
      var p, d := ds[..|ds| - 1], ds[|ds| - 1];
      AnalyzeShaderBlocks(p);
      assert AnalyzeShader(ds) == Step(AnalyzeShader(p).value, d);
    }
  }

  /** The variables are the free uniform variables, each analysed on its own, in source
      order; struct-typed and `const` declarations contribute nothing. */
  lemma {:induction false} AnalyzeShaderVariables(ds: seq<ExternalDeclaration>)
    requires DeclarationsStatus(ds) != Aborts && AnalyzeShader(ds).Success?
    ensures var vs, r := UniformVariablesOf(ds), AnalyzeShader(ds).value;
      |r.variables| == |vs| &&
      forall k :: 0 <= k < |vs| ==>
        InitDeclaratorListStatus(vs[k]) == Accepts &&
        MatchInitDeclaratorList(vs[k]) == Success(Some(r.variables[k]))
    decreases |ds|
  {
    if |ds| > 0 {
      var p, d := ds[..|ds| - 1], ds[|ds| - 1];
      AnalyzeShaderVariables(p);
      assert DeclarationStatus(d) == Accepts;
      var io, r := AnalyzeShader(p).value, AnalyzeShader(ds).value;
      assert r == Step(io, d).value;
      if d.DeclarationItem? && d.declaration.InitDeclarators? {
        var idl := d.declaration.list;
        var variable := MatchInitDeclaratorList(idl).value;
        assert variable.Some? <==> IsUniformVariable(idl);
        assert UniformVariablesOf(ds) == UniformVariablesOf(p) + (if variable.Some? then [idl] else []);
      } else {
        assert r.variables == io.variables;
        assert UniformVariablesOf(ds) == UniformVariablesOf(p);
      }
    }
  }

  /** Removing the ignored declarations does not change the verdict. */
  lemma {:induction false} WithoutIgnoredStatus(ds: seq<ExternalDeclaration>)
    ensures DeclarationsStatus(WithoutIgnored(ds)) == DeclarationsStatus(ds)
    decreases |ds|
  {
    if |ds| > 0 {
      var p, d := ds[..|ds| - 1], ds[|ds| - 1];
      WithoutIgnoredStatus(p);
      var w := WithoutIgnored(ds);
      assert DeclarationsStatus(ds) == Then(DeclarationsStatus(p), DeclarationStatus(d));
      if !IsIgnored(d) {
        assert w == WithoutIgnored(p) + [d];
        assert w[..|w| - 1] == WithoutIgnored(p);
        assert w[|w| - 1] == d;
        assert DeclarationsStatus(w) == Then(DeclarationsStatus(WithoutIgnored(p)), DeclarationStatus(d));
      } else {
        assert w == WithoutIgnored(p);
        assert DeclarationStatus(d) == Accepts;
        assert DeclarationsStatus(ds) == DeclarationsStatus(p);
      }
    }
  }

  /** Removing the ignored declarations does not change the result. */
  lemma {:induction false} AnalyzeShaderWithoutIgnored(ds: seq<ExternalDeclaration>)
    requires DeclarationsStatus(ds) != Aborts
    ensures DeclarationsStatus(WithoutIgnored(ds)) != Aborts
    ensures AnalyzeShader(WithoutIgnored(ds)) == AnalyzeShader(ds)
    decreases |ds|
  {
    WithoutIgnoredStatus(ds);
    if |ds| > 0 {
      var p, d := ds[..|ds| - 1], ds[|ds| - 1];
      AnalyzeShaderWithoutIgnored(p);
      var w := WithoutIgnored(ds);
      if AnalyzeShader(p).Success? {
        var io := AnalyzeShader(p).value;
        assert AnalyzeShader(ds) == Step(io, d);
        if !IsIgnored(d) {
          assert w[..|w| - 1] == WithoutIgnored(p);
          assert w[|w| - 1] == d;
          assert AnalyzeShader(w) == Step(io, d);
        } else {
          assert w == WithoutIgnored(p);
        }
      } else if !IsIgnored(d) {
        assert w[..|w| - 1] == WithoutIgnored(p);
      } else {
        assert w == WithoutIgnored(p);
      }
    }
  }
}
