/** Values shared by the storage modules. */
module Objects {

  /** A cached API object: identity, resource version and everything else. */
  datatype Object = Object(namespace: string, name: string, version: nat, payload: string)
}
