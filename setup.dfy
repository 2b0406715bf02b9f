/** Start-up decisions taken before any inference resource exists: which
    model file to load, which prompt (if any) opens the conversation, and
    whether a missing model file can be fetched. */
module Setup {
  import opened Text

  const ModelName: string := "NVIDIA-Nemotron-3-Nano-30B-A3B-Q4_K_M.gguf"
  const DefaultModelPath: string := "models/" + ModelName

  /** The model path and the one-shot first prompt ("" when there is none). */
  datatype Args = Args(modelPath: string, initialPrompt: string)

  /** Argument selection; `argv[0]` is the program name. */
  function SelectArgs(argv: seq<string>): (r: Args)
    ensures |argv| < 2 ==> r.modelPath == DefaultModelPath && r.initialPrompt == ""
    ensures |argv| >= 2 ==> r.modelPath == argv[1]
    ensures r.initialPrompt != "" ==> |argv| > 2 && r.initialPrompt == argv[2]
    ensures |argv| > 2 ==> r.initialPrompt == argv[2]
  {
    if |argv| < 2 then Args(DefaultModelPath, "")
    else if |argv| > 2 then Args(argv[1], argv[2])
    else Args(argv[1], "")
  }

  /** What happens to a model path before loading: the file is there, the
      default model was fetched, or the process exits with status 1. */
  datatype ModelCheck = Present | Fetched | FetchFailed | InvalidPath
  {
    predicate IsFatal() { this == FetchFailed || this == InvalidPath }
  }

  /** `onDisk` is the file-system existence test; `fetchStatus` is the
      status the download command returned (used only when one runs). */
  function EnsureModel(path: string, onDisk: bool, fetchStatus: int): (r: ModelCheck)
    ensures r == Present <==> onDisk
    ensures r == InvalidPath <==> !onDisk && !Contains(path, ModelName)
    ensures r.IsFatal() <==> !onDisk && (!Contains(path, ModelName) || fetchStatus != 0)
  {
    if onDisk then Present
    else if Find(path, ModelName).Some? then (if fetchStatus == 0 then Fetched else FetchFailed)
    else InvalidPath
  }

  /** Started without arguments, the client never rejects the model path:
      a missing default model is always downloadable. */
  lemma DefaultPathIsFetchable(argv: seq<string>, onDisk: bool, fetchStatus: int)
    requires |argv| < 2
    ensures EnsureModel(SelectArgs(argv).modelPath, onDisk, fetchStatus) != InvalidPath
    ensures !onDisk && fetchStatus == 0 ==>
              EnsureModel(SelectArgs(argv).modelPath, onDisk, fetchStatus) == Fetched
  {
    var p := SelectArgs(argv).modelPath;
    assert p[7..7 + |ModelName|] == ModelName;
    assert OccursAt(p, ModelName, 7);
  }
}
