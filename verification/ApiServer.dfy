/** The part of the Kubernetes API server that the patch store lives in, as a store of objects and one
    function per call. HTTP downloads from the remote repository are calls too. */
module ApiServer {
  import opened Wrappers

  type Data = map<string, string>

  // The data of the bke-config ConfigMap of namespace cluster-system, whether namespace openfuyao-patch
  // exists, and the data of its ConfigMaps by name.
  datatype Store = Store(config: Option<Data>, namespace: bool, patches: map<string, Data>)

  // What the remote repository serves under a URL.
  type Remote = string -> Option<string>

  datatype Call =
    | GetConfig
    | UpdateConfig(data: Data)
    | PatchConfig(key: string, value: string)
    | GetNamespace
    | CreateNamespace
    | GetPatch(name: string)
    | DeletePatch(name: string)
    | CreatePatch(name: string, data: Data)
    | Fetch(url: string)

  datatype Reply = Done | Object(data: Data) | Body(text: string) | NotFound | AlreadyExists | Unavailable

  // What a call does, and answers, when the server serves it.
  function Apply(s: Store, call: Call, remote: Remote): (Store, Reply) {
    match call
    case GetConfig => (s, if s.config.Some? then Object(s.config.value) else NotFound)
    case UpdateConfig(data) =>
      if s.config.Some? then (s.(config := Some(data)), Done) else (s, NotFound)
    case PatchConfig(key, value) =>
      if s.config.Some? then (s.(config := Some(s.config.value[key := value])), Done) else (s, NotFound)
    case GetNamespace => (s, if s.namespace then Done else NotFound)
    case CreateNamespace => if s.namespace then (s, AlreadyExists) else (s.(namespace := true), Done)
    case GetPatch(name) => (s, if name in s.patches then Object(s.patches[name]) else NotFound)
    case DeletePatch(name) =>
      if name in s.patches then (s.(patches := s.patches - {name}), Done) else (s, NotFound)
    case CreatePatch(name, data) =>
      if !s.namespace then (s, NotFound)
      else if name in s.patches then (s, AlreadyExists)
      else (s.(patches := s.patches[name := data]), Done)
    case Fetch(url) => (s, if remote(url).Some? then Body(remote(url).value) else NotFound)
  }
}
