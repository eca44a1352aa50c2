/** The stored user document shared by the login and registration handlers. */
module Users {
  import opened Wrappers
  import opened Faces

  /** One enrolled user; a document may lack its embedding. */
  datatype UserRecord = UserRecord(name: string, email: string, faceEmbedding: Option<Descriptor>)
}
