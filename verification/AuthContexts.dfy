/** The contexts in which a user can hold a credential. */
module AuthContexts {

  datatype AuthContext = Owner | Collaborator | Portal
}
