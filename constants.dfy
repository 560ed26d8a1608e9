/** The instruction keywords, history-entry markers and source kinds shared by the rule
    engine and the decompiler. */
module Constants {
  import opened Text

  /** Marks a history entry made by a metadata instruction (no layer was executed). */
  const Nop: string := "#(nop) "
  /** The shell wrapper around commands recorded by RUN. */
  const RunPrefix: string := "/bin/sh -c "

  const FromInstruction: string := "FROM "
  const RunInstruction: string := "RUN "
  const CmdInstruction: string := "CMD "
  const LabelInstruction: string := "LABEL "
  /** Spelled without the T, as in the source: a MAINTAINER line never matches it. */
  const MaintainerInstruction: string := "MAINAINER "
  const ExposeInstruction: string := "EXPOSE "
  const EnvInstruction: string := "ENV "
  const AddInstruction: string := "ADD "
  const CopyInstruction: string := "COPY "
  const EntrypointInstruction: string := "ENTRYPOINT "
  const VolumeInstruction: string := "VOLUME "
  const UserInstruction: string := "USER "
  const WorkdirInstruction: string := "WORKDIR "
  const ArgInstruction: string := "ARG "
  const OnbuildInstruction: string := "ONBUILD "
  const StopsignalInstruction: string := "STOPSIGNAL "
  const HealthcheckInstruction: string := "HEALTHCHECK "
  const ShellInstruction: string := "SHELL "

  /** Every instruction constant, in declaration order. */
  const AllInstructions: seq<string> := [
    FromInstruction, RunInstruction, CmdInstruction, LabelInstruction, MaintainerInstruction,
    ExposeInstruction, EnvInstruction, AddInstruction, CopyInstruction, EntrypointInstruction,
    VolumeInstruction, UserInstruction, WorkdirInstruction, ArgInstruction, OnbuildInstruction,
    StopsignalInstruction, HealthcheckInstruction, ShellInstruction]

  /** Where an instruction sequence comes from: the analysed target or a base image. */
  datatype SourceType = Image | Parent {
    function Name(): (n: string)
      ensures n != []
    {
      match this
      case Image => "IMAGE"
      case Parent => "PARENT_IMAGE"
    }
  }

  datatype Source = Source(name: string, kind: SourceType)

  /** An upper-case keyword followed by exactly one space. */
  predicate IsKeyword(c: string) {
    |c| >= 2 && c[|c| - 1] == ' ' && forall i :: 0 <= i < |c| - 1 ==> 'A' <= c[i] <= 'Z'
  }

  lemma InstructionConstantsAreKeywords()
    ensures forall k :: 0 <= k < |AllInstructions| ==> IsKeyword(AllInstructions[k])
    ensures IsKeyword(MaintainerInstruction) && MaintainerInstruction != "MAINTAINER "
  {
    FirstKeywords();
    MiddleKeywords();
    LastKeywords();
  }

  lemma FirstKeywords()
    ensures IsKeyword(FromInstruction) && IsKeyword(RunInstruction) && IsKeyword(CmdInstruction)
    ensures IsKeyword(LabelInstruction) && IsKeyword(MaintainerInstruction) && IsKeyword(ExposeInstruction)
  {
  }

  lemma MiddleKeywords()
    ensures IsKeyword(EnvInstruction) && IsKeyword(AddInstruction) && IsKeyword(CopyInstruction)
    ensures IsKeyword(EntrypointInstruction) && IsKeyword(VolumeInstruction) && IsKeyword(UserInstruction)
  {
  }

  lemma LastKeywords()
    ensures IsKeyword(WorkdirInstruction) && IsKeyword(ArgInstruction) && IsKeyword(OnbuildInstruction)
    ensures IsKeyword(StopsignalInstruction) && IsKeyword(HealthcheckInstruction) && IsKeyword(ShellInstruction)
  {
  }

  lemma MarkersEndInOneSpace()
    ensures Nop[|Nop| - 1] == ' ' && Nop[|Nop| - 2] != ' '
    ensures RunPrefix[|RunPrefix| - 1] == ' ' && RunPrefix[|RunPrefix| - 2] != ' '
  {
  }

  lemma SourceTypeNamesDistinct()
    ensures Image.Name() == "IMAGE" && Parent.Name() == "PARENT_IMAGE"
    ensures Image.Name() != Parent.Name()
  {
  }
}
