/** Step provenance: which facts of the workspace enter a step's signature.

    Facts are JSON values.  A JSON object is a map, because the original serialises
    objects with sorted keys before hashing them.  A number that is not an integer is a
    decimal fraction, given by its digits and its exponent. */
module StepProvenance {
  import opened Texts
  import opened Options

  datatype Json =
    | JStr(text: string)
    | JInt(num: int)
    | JReal(digits: int, exponent: int)
    | JBool(flag: bool)
    | JNull
    | JList(items: seq<Json>)
    | JObj(fields: map<string, Json>)

  const SCHEMA_VERSION := 1

  /** What `build_step_provenance` can observe: the merged workspace record, its
      parameters file, the fingerprint of its source inputs, the identity of the
      installed tools, and the digest that turns a value into text. */
  datatype Environment = Environment(
    workspace: map<string, Json>,
    parameters: map<string, Json>,
    source: Json,
    runtimeRoot: string,
    sourceFile: string -> Json,
    executable: string -> Json,
    digest: Json -> string)

  datatype Provenance = Provenance(
    step: string,
    tool: string,
    inputFingerprint: string,
    configFingerprint: string,
    toolFingerprint: string,
    signature: string,
    outputFingerprint: string)

  ghost predicate Injective(digest: Json -> string) {
    forall x, y :: digest(x) == digest(y) ==> x == y
  }

  function StepConfigFields(step: string): seq<string> {
    match step
    case "prepare" =>
      ["top_module", "cpu_wrapper_id", "cpu_wrapper_contract", "cpu_socket_contract", "cpu_wrapper_top",
       "required_cpu_top_module", "required_cpu_top_ports", "required_cpu_top_port_contract",
       "cpu_reset_vector", "soc_cpu_reset_vector", "soc_wrapper_id", "soc_wrapper_contract", "soc_wrapper_top"]
    case "review" => ["review_waivers"]
    case "elab" => ["top_module"]
    case "lint" => ["top_module", "lint_profile", "lint_baseline", "lint_waivers"]
    case "sim" =>
      ["testbench", "frequency_max", "Frequency max [MHz]", "cpu_supports_difftest", "soc_supports_difftest"]
    case _ => []
  }

  function StepSourceFiles(step: string): seq<string> {
    match step
    case "prepare" => ["tools/prepare/runner.py"]
    case "review" => ["tools/review/runner.py", "tools/review/analyzer.py", "tools/review/structural_probe.py"]
    case "elab" => ["tools/slang/runner.py"]
    case "lint" => ["tools/verilator/runner.py"]
    case "sim" => ["tools/verilator/runner.py"]
    case _ => []
  }

  function StepExecutables(step: string): seq<string> {
    match step
    case "review" => ["yosys"]
    case "elab" => ["slang"]
    case "lint" => ["verilator"]
    case "sim" => ["verilator"]
    case _ => []
  }

  const COMMON_SOURCE_FILES := ["analysis/qor.py"]

  /** The configuration keys a step depends on; `sim` also depends on every `sim_` key. */
  predicate IsConfigField(step: string, field: string) {
    field in StepConfigFields(step) || (step == "sim" && StartsWith(field, "sim_"))
  }

  function Merged(env: Environment): map<string, Json> {
    env.parameters + env.workspace
  }

  function StepConfiguration(env: Environment, step: string): map<string, Json> {
    var merged := Merged(env);
    map field | field in merged && IsConfigField(step, field) :: merged[field]
  }

  function ResourceVersions(env: Environment): Json {
    if "resource_versions" in env.parameters then
      var versions := env.parameters["resource_versions"];
      if versions.JObj? || versions.JList? then versions else JObj(map[])
    else JObj(map[])
  }

  function ToolIdentity(env: Environment, step: string, tool: string): Json {
    JObj(map[
      "runner" := JStr(tool),
      "runtime_root" := JStr(env.runtimeRoot),
      "runner_sources" := JObj(map f | f in StepSourceFiles(step) + COMMON_SOURCE_FILES :: env.sourceFile(f)),
      "executables" := JObj(map x | x in StepExecutables(step) :: env.executable(x))])
  }

  /** The identity of the upstream result; a missing upstream has three empty texts. */
  function UpstreamIdentity(upstream: Option<Provenance>): Json {
    match upstream
    case None => JObj(map["step" := JStr(""), "signature" := JStr(""), "output_fingerprint" := JStr("")])
    case Some(p) => JObj(map["step" := JStr(p.step), "signature" := JStr(p.signature),
                             "output_fingerprint" := JStr(p.outputFingerprint)])
  }

  function Inputs(env: Environment, upstream: Option<Provenance>): Json {
    JObj(map["source" := env.source, "upstream" := UpstreamIdentity(upstream)])
  }

  function ToolFacts(env: Environment, step: string, tool: string): Json {
    JObj(map["resources" := ResourceVersions(env), "tools" := ToolIdentity(env, step, tool)])
  }

  function SignedFacts(step: string, inputs: string, config: string, tools: string): Json {
    JObj(map["schema_version" := JInt(SCHEMA_VERSION), "step" := JStr(step), "input_fingerprint" := JStr(inputs),
             "config_fingerprint" := JStr(config), "tool_fingerprint" := JStr(tools)])
  }

  function BuildStepProvenance(env: Environment, step: string, tool: string, upstream: Option<Provenance>): Provenance {
    var inputs := env.digest(Inputs(env, upstream));
    var config := env.digest(JObj(StepConfiguration(env, step)));
    var tools := env.digest(ToolFacts(env, step, tool));
    Provenance(step, tool, inputs, config, tools, env.digest(SignedFacts(step, inputs, config, tools)), "")
  }

  /** The text a result of this step must carry to count as current. */
  function Signature(env: Environment, step: string, tool: string, upstream: Option<Provenance>): string {
    BuildStepProvenance(env, step, tool, upstream).signature
  }

  // What a step depends on

  ghost predicate DependsOnField(step: string, field: string) {
    || (step == "prepare" && field in {
          "top_module", "required_cpu_top_module", "required_cpu_top_ports", "required_cpu_top_port_contract",
          "cpu_wrapper_id", "cpu_wrapper_contract", "cpu_wrapper_top", "cpu_socket_contract",
          "cpu_reset_vector", "soc_cpu_reset_vector", "soc_wrapper_id", "soc_wrapper_contract", "soc_wrapper_top"})
    || (step == "review" && field == "review_waivers")
    || (step == "elab" && field == "top_module")
    || (step == "lint" && field in {"top_module", "lint_profile", "lint_baseline", "lint_waivers"})
    || (step == "sim" &&
          (|| StartsWith(field, "sim_")
           || field in {"testbench", "frequency_max", "Frequency max [MHz]", "cpu_supports_difftest",
                        "soc_supports_difftest"}))
  }

  ghost predicate DependsOnSource(step: string, file: string) {
    || file == "analysis/qor.py"
    || (step == "prepare" && file == "tools/prepare/runner.py")
    || (step == "review" && file in {"tools/review/runner.py", "tools/review/analyzer.py",
                                     "tools/review/structural_probe.py"})
    || (step == "elab" && file == "tools/slang/runner.py")
    || (step in {"lint", "sim"} && file == "tools/verilator/runner.py")
  }

  ghost predicate DependsOnTool(step: string, executable: string) {
    || (step == "review" && executable == "yosys")
    || (step == "elab" && executable == "slang")
    || (step in {"lint", "sim"} && executable == "verilator")
  }

  /** The workspace record wins over the parameters file. */
  ghost function Setting(env: Environment, field: string): Option<Json> {
    if field in env.workspace then Some(env.workspace[field])
    else if field in env.parameters then Some(env.parameters[field])
    else None
  }

  ghost predicate HasVersions(env: Environment) {
    "resource_versions" in env.parameters
    && (env.parameters["resource_versions"].JObj? || env.parameters["resource_versions"].JList?)
  }

  /** The same recorded versions; none at all count as an empty object. */
  ghost predicate SameVersions(env1: Environment, env2: Environment) {
    if HasVersions(env1) && HasVersions(env2)
      then env1.parameters["resource_versions"] == env2.parameters["resource_versions"]
    else if HasVersions(env1) then env1.parameters["resource_versions"] == JObj(map[])
    else if HasVersions(env2) then env2.parameters["resource_versions"] == JObj(map[])
    else true
  }

  /** Two environments agree on everything a step depends on. */
  ghost predicate SameStepFacts(env1: Environment, env2: Environment, step: string) {
    && env1.source == env2.source
    && (forall field | DependsOnField(step, field) :: Setting(env1, field) == Setting(env2, field))
    && SameVersions(env1, env2)
    && env1.runtimeRoot == env2.runtimeRoot
    && (forall f | DependsOnSource(step, f) :: env1.sourceFile(f) == env2.sourceFile(f))
    && (forall x | DependsOnTool(step, x) :: env1.executable(x) == env2.executable(x))
  }

  /** The same upstream result; none at all has three empty texts. */
  ghost predicate SameUpstream(up1: Option<Provenance>, up2: Option<Provenance>) {
    match (up1, up2)
    case (None, None) => true
    case (Some(p), None) => p.step == "" && p.signature == "" && p.outputFingerprint == ""
    case (None, Some(q)) => q.step == "" && q.signature == "" && q.outputFingerprint == ""
    case (Some(p), Some(q)) =>
      p.step == q.step && p.signature == q.signature && p.outputFingerprint == q.outputFingerprint
  }

  lemma {:induction false} FieldOf(m1: map<string, Json>, m2: map<string, Json>, key: string)
    requires JObj(m1) == JObj(m2)
    ensures key in m1 <==> key in m2
    ensures key in m1 ==> m1[key] == m2[key]
  {
  }

  lemma {:induction false} DependenciesListed(step: string)
    ensures forall field :: IsConfigField(step, field) <==> DependsOnField(step, field)
    ensures forall f :: f in StepSourceFiles(step) + COMMON_SOURCE_FILES <==> DependsOnSource(step, f)
    ensures forall x :: x in StepExecutables(step) <==> DependsOnTool(step, x)
  {
  }

  lemma {:induction false} SettingIsMerged(env: Environment, field: string)
    ensures Setting(env, field) == if field in Merged(env) then Some(Merged(env)[field]) else None
  {
  }

  lemma {:induction false} ConfigurationAgrees(env1: Environment, env2: Environment, step: string)
    ensures StepConfiguration(env1, step) == StepConfiguration(env2, step) <==>
            forall field | DependsOnField(step, field) :: Setting(env1, field) == Setting(env2, field)
  {
    hide Setting, DependsOnField, IsConfigField, Merged;
    DependenciesListed(step);
    var c1, c2 := StepConfiguration(env1, step), StepConfiguration(env2, step);
    forall field | DependsOnField(step, field)
      ensures Setting(env1, field) == if field in c1 then Some(c1[field]) else None
      ensures Setting(env2, field) == if field in c2 then Some(c2[field]) else None
    {
      SettingIsMerged(env1, field);
      SettingIsMerged(env2, field);
    }
    if forall field | DependsOnField(step, field) :: Setting(env1, field) == Setting(env2, field) {
      forall field ensures field in c1 <==> field in c2
        ensures field in c1 ==> c1[field] == c2[field] {
        assert field in c1 || field in c2 ==> DependsOnField(step, field);
      }
    }
  }

  lemma {:induction false} ToolIdentityAgrees(env1: Environment, env2: Environment, step: string, tool1: string,
                                              tool2: string)
    ensures ToolIdentity(env1, step, tool1) == ToolIdentity(env2, step, tool2) <==>
            && tool1 == tool2 && env1.runtimeRoot == env2.runtimeRoot
            && (forall f | DependsOnSource(step, f) :: env1.sourceFile(f) == env2.sourceFile(f))
            && (forall x | DependsOnTool(step, x) :: env1.executable(x) == env2.executable(x))
  {
    hide StepSourceFiles, StepExecutables, DependsOnSource, DependsOnTool;
    DependenciesListed(step);
    var t1, t2 := ToolIdentity(env1, step, tool1), ToolIdentity(env2, step, tool2);
    var s1, s2 := t1.fields["runner_sources"].fields, t2.fields["runner_sources"].fields;
    var x1, x2 := t1.fields["executables"].fields, t2.fields["executables"].fields;
    assert (forall f | f in StepSourceFiles(step) + COMMON_SOURCE_FILES :: env1.sourceFile(f) == env2.sourceFile(f))
           ==> s1 == s2;
    assert (forall x | x in StepExecutables(step) :: env1.executable(x) == env2.executable(x)) ==> x1 == x2;
    if t1 == t2 {
      FieldOf(t1.fields, t2.fields, "runner");
      FieldOf(t1.fields, t2.fields, "runtime_root");
      FieldOf(t1.fields, t2.fields, "runner_sources");
      FieldOf(t1.fields, t2.fields, "executables");
      forall f | f in StepSourceFiles(step) + COMMON_SOURCE_FILES ensures env1.sourceFile(f) == env2.sourceFile(f) {
        assert f in s1 && s1[f] == s2[f];
      }
      forall x | x in StepExecutables(step) ensures env1.executable(x) == env2.executable(x) {
        assert x in x1 && x1[x] == x2[x];
      }
    }
  }

  lemma {:induction false} UpstreamAgrees(up1: Option<Provenance>, up2: Option<Provenance>)
    ensures UpstreamIdentity(up1) == UpstreamIdentity(up2) <==> SameUpstream(up1, up2)
  {
    var u1, u2 := UpstreamIdentity(up1), UpstreamIdentity(up2);
    if u1 == u2 {
      FieldOf(u1.fields, u2.fields, "step");
      FieldOf(u1.fields, u2.fields, "signature");
      FieldOf(u1.fields, u2.fields, "output_fingerprint");
    }
  }

  lemma {:induction false} InputsAgree(env1: Environment, env2: Environment, up1: Option<Provenance>,
                                       up2: Option<Provenance>)
    ensures Inputs(env1, up1) == Inputs(env2, up2) <==>
            env1.source == env2.source && SameUpstream(up1, up2)
  {
    UpstreamAgrees(up1, up2);
    var i1, i2 := Inputs(env1, up1), Inputs(env2, up2);
    if i1 == i2 {
      FieldOf(i1.fields, i2.fields, "source");
      FieldOf(i1.fields, i2.fields, "upstream");
    }
  }

  lemma {:induction false} ToolFactsAgree(env1: Environment, env2: Environment, step: string, tool1: string,
                                          tool2: string)
    ensures ToolFacts(env1, step, tool1) == ToolFacts(env2, step, tool2) <==>
            && SameVersions(env1, env2)
            && ToolIdentity(env1, step, tool1) == ToolIdentity(env2, step, tool2)
  {
    var t1, t2 := ToolFacts(env1, step, tool1), ToolFacts(env2, step, tool2);
    if t1 == t2 {
      FieldOf(t1.fields, t2.fields, "resources");
      FieldOf(t1.fields, t2.fields, "tools");
    }
  }

  lemma {:induction false} SignedFactsAgree(step1: string, i1: string, c1: string, t1: string,
                         step2: string, i2: string, c2: string, t2: string)
    ensures SignedFacts(step1, i1, c1, t1) == SignedFacts(step2, i2, c2, t2) <==>
            step1 == step2 && i1 == i2 && c1 == c2 && t1 == t2
  {
    var f1, f2 := SignedFacts(step1, i1, c1, t1), SignedFacts(step2, i2, c2, t2);
    if f1 == f2 {
      FieldOf(f1.fields, f2.fields, "step");
      FieldOf(f1.fields, f2.fields, "input_fingerprint");
      FieldOf(f1.fields, f2.fields, "config_fingerprint");
      FieldOf(f1.fields, f2.fields, "tool_fingerprint");
    }
  }

  lemma {:induction false} StepFactsAgree(env1: Environment, env2: Environment, step: string, tool1: string,
                                          tool2: string)
    ensures && StepConfiguration(env1, step) == StepConfiguration(env2, step)
            && ToolFacts(env1, step, tool1) == ToolFacts(env2, step, tool2)
            && env1.source == env2.source
            <==> tool1 == tool2 && SameStepFacts(env1, env2, step)
  {
    ConfigurationAgrees(env1, env2, step);
    ToolFactsAgree(env1, env2, step, tool1, tool2);
    ToolIdentityAgrees(env1, env2, step, tool1, tool2);
  }

  /** A new record names its step and tool, has no output yet, and each of its three fingerprints
      stands for the facts of its own kind. */
  lemma {:induction false} FingerprintsIdentifyFacts(env1: Environment, env2: Environment, step: string, tool1: string,
                                                     tool2: string, up1: Option<Provenance>, up2: Option<Provenance>)
    requires env1.digest == env2.digest && Injective(env1.digest)
    ensures var r1 := BuildStepProvenance(env1, step, tool1, up1);
            var r2 := BuildStepProvenance(env2, step, tool2, up2);
            && r1.step == step && r1.tool == tool1 && r1.outputFingerprint == ""
            && (r1.inputFingerprint == r2.inputFingerprint <==> env1.source == env2.source && SameUpstream(up1, up2))
            && (r1.configFingerprint == r2.configFingerprint <==>
                  forall field | DependsOnField(step, field) :: Setting(env1, field) == Setting(env2, field))
            && (r1.toolFingerprint == r2.toolFingerprint <==>
                  && tool1 == tool2 && SameVersions(env1, env2) && env1.runtimeRoot == env2.runtimeRoot
                  && (forall f | DependsOnSource(step, f) :: env1.sourceFile(f) == env2.sourceFile(f))
                  && (forall x | DependsOnTool(step, x) :: env1.executable(x) == env2.executable(x)))
  {
    hide Injective, Inputs, StepConfiguration, ToolFacts, SignedFacts, SameUpstream, SameVersions, Setting;
    InputsAgree(env1, env2, up1, up2);
    ConfigurationAgrees(env1, env2, step);
    ToolFactsAgree(env1, env2, step, tool1, tool2);
    ToolIdentityAgrees(env1, env2, step, tool1, tool2);
    DigestAgrees(env1.digest, Inputs(env1, up1), Inputs(env2, up2));
    DigestAgrees(env1.digest, JObj(StepConfiguration(env1, step)), JObj(StepConfiguration(env2, step)));
    DigestAgrees(env1.digest, ToolFacts(env1, step, tool1), ToolFacts(env2, step, tool2));
  }

  lemma {:induction false} DigestAgrees(digest: Json -> string, x: Json, y: Json)
    requires Injective(digest)
    ensures digest(x) == digest(y) <==> x == y
  {
  }

  /** With a collision-free digest, equal signatures mean exactly this: the same step and
      tool, the same source inputs, the same values of every configuration key the step
      depends on, the same resources and tool files, and the same upstream result. */
  lemma {:induction false} SignatureIdentifiesFacts(env1: Environment, step1: string, tool1: string,
                                                    up1: Option<Provenance>,
                                 env2: Environment, step2: string, tool2: string, up2: Option<Provenance>)
    requires env1.digest == env2.digest && Injective(env1.digest)
    ensures Signature(env1, step1, tool1, up1) == Signature(env2, step2, tool2, up2) <==>
            && step1 == step2 && tool1 == tool2
            && SameStepFacts(env1, env2, step1)
            && SameUpstream(up1, up2)
  {
    var p1, p2 := BuildStepProvenance(env1, step1, tool1, up1), BuildStepProvenance(env2, step2, tool2, up2);
    var in1, in2 := Inputs(env1, up1), Inputs(env2, up2);
    var co1, co2 := JObj(StepConfiguration(env1, step1)), JObj(StepConfiguration(env2, step2));
    var to1, to2 := ToolFacts(env1, step1, tool1), ToolFacts(env2, step2, tool2);
    SignedFactsAgree(step1, env1.digest(in1), env1.digest(co1), env1.digest(to1),
                     step2, env1.digest(in2), env1.digest(co2), env1.digest(to2));
    DigestAgrees(env1.digest, SignedFacts(step1, env1.digest(in1), env1.digest(co1), env1.digest(to1)),
                 SignedFacts(step2, env1.digest(in2), env1.digest(co2), env1.digest(to2)));
    assert p1.signature == p2.signature <==> step1 == step2 && in1 == in2 && co1 == co2 && to1 == to2 by {
      DigestAgrees(env1.digest, in1, in2);
      DigestAgrees(env1.digest, co1, co2);
      DigestAgrees(env1.digest, to1, to2);
    }
    InputsAgree(env1, env2, up1, up2);
    if step1 == step2 {
      StepFactsAgree(env1, env2, step1, tool1, tool2);
    }
  }
}
