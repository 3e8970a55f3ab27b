/** The stages of an auxiliary server, as the bootstrap orders them and the client obeys. */
module AuxStates {
  datatype AuxState = NoServerAux | ServerAuxActive | ServerAuxMesclar
}
