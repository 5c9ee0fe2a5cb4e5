// The values that pass between the profile cache, the transformer and the
// command layer.
module Models {
  import opened Wrappers
  import opened IntTypes

  datatype ValueType = Integer(t: IntType) | Bool | String

  datatype Value = Null | Int(n: int) | Truth(b: bool) | Text(s: string)

  // What the caches raise.
  datatype CacheError = DuplicateName | EntityDoesNotExist

  datatype Permission = ReadOnly | WriteOnly | ReadWrite

  datatype ResourceProperties = ResourceProperties(
    valueType: ValueType,
    readWrite: Permission,
    defaultValue: string,
    minimum: Option<real>,
    maximum: Option<real>,
    mask: Option<int>,
    shift: Option<int>,
    base: Option<real>,
    scale: Option<real>,
    offset: Option<real>,
    assertion: string)

  datatype DeviceResource = DeviceResource(name: string, properties: ResourceProperties)

  // Mappings keep the order in which the profile lists them.
  datatype ResourceOperation = ResourceOperation(
    deviceResource: string,
    defaultValue: string,
    mappings: seq<(string, string)>)

  datatype DeviceCommand = DeviceCommand(
    name: string,
    readWrite: Permission,
    resourceOperations: seq<ResourceOperation>)

  datatype DeviceProfile = DeviceProfile(
    name: string,
    id: string,
    deviceResources: seq<DeviceResource>,
    deviceCommands: seq<DeviceCommand>)
}
