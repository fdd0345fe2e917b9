/** Outcomes of calls that the C++ code reports by throwing. */
module Results {
  datatype Error = NoData | Already | MqttError | InvalidArgument

  datatype Result<+T> = Ok(value: T) | Err(error: Error)

  datatype Option<+T> = None | Some(value: T)
}
