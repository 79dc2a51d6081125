/** The classes the engine core uses but whose definitions lie outside this
    model: the GPU-resource components (`Mesh`, `Material`, `Shader`,
    `Texture`, `Pipeline`), plain user components, the render loop's `Tick`
    and the `Input` resource. Only the fields the core reads are kept. */
module Objects {

  /** The runtime class of a value: what `instanceof` tests and `nameof` names. */
  datatype ClassName =
    | MeshClass
    | MaterialClass
    | ShaderClass
    | TextureClass
    | PipelineClass
    | TickClass
    | InputClass
    | UserClass(name: string)

  datatype VertexLayout = PosColor | PosNormalColor

  datatype ShaderStage = VertexStage | FragmentStage

  /** One vertex of a mesh: its attributes, packed by the mesh's layout. */
  datatype Vertex = Vertex(position: seq<real>, normal: seq<real>, color: seq<real>)

  /** A component attached to an entity. Every variant except `Data` is a
      GPU resource and carries an `initialized` flag. */
  datatype Component =
    | Mesh(layout: VertexLayout, vertices: seq<Vertex>, indices: seq<int>, initialized: bool)
    | Material(shaders: seq<Component>, depthTest: bool, initialized: bool)
    | Shader(stage: ShaderStage, entryPoint: string, source: string, initialized: bool)
    | Texture(width: nat, height: nat, initialized: bool)
    | Pipeline(material: Component, vertexLayout: VertexLayout, key: string, initialized: bool)
    | Data(className: string, fields: seq<int>)

  function ClassOf(c: Component): ClassName {
    match c
    case Mesh(_, _, _, _) => MeshClass
    case Material(_, _, _) => MaterialClass
    case Shader(_, _, _, _) => ShaderClass
    case Texture(_, _, _) => TextureClass
    case Pipeline(_, _, _, _) => PipelineClass
    case Data(name, _) => UserClass(name)
  }

  /** The "is a GPU resource" capability. */
  predicate IsResource(c: Component) {
    !c.Data?
  }

  /** A mesh is indexed exactly when it has indices. */
  predicate IsIndexed(mesh: Component)
    requires mesh.Mesh?
  {
    |mesh.indices| > 0
  }

  /** The render loop's time value; its package is outside this model. */
  datatype Tick = Tick(timestep: real, elapsed: real, frame: nat)

  /** `Tick.zero(timestep)`: no time has elapsed yet. */
  function TickZero(timestep: real): Tick
  {
    Tick(timestep, 0.0, 0)
  }

  /** A value stored in a World's resource registry. */
  datatype Object =
    | TickObject(tick: Tick)
    | InputObject(bindings: seq<string>)
    | UserObject(className: string, state: seq<int>)

  /** The registry key of a value: the name of its class. */
  function KeyOf(o: Object): ClassName {
    match o
    case TickObject(_) => TickClass
    case InputObject(_) => InputClass
    case UserObject(name, _) => UserClass(name)
  }
}
