/**
 * The values the adapter works with: its configuration, the deliveries it
 * receives from the broker and the errors its steps can return.
 */
module AdapterTypes {

  /** The resource group every event-count report is keyed by. */
  const ResourceGroup: string := "rabbitmqsources.sources.knative.dev"

  newtype byte = x: int | 0 <= x < 256

  /**
   * The part of the adapter configuration the modelled code reads. Go's
   * `int` Parallelism may be zero or negative, so it is an `int` here.
   */
  datatype Config = Config(
    name: string,
    namespace: string,
    queueName: string,
    rabbitUrl: string,
    vhost: string,
    parallelism: int)

  /** One message handed over by the broker, pending an Ack or a Nack. */
  datatype Delivery = Delivery(messageId: string, deliveryTag: nat, body: seq<byte>)

  /**
   * An error value. Errors returned by the foreign collaborators are opaque
   * and carried as `Failed`; a non-2xx response becomes `UnexpectedStatus`.
   */
  datatype Error = Failed(message: string) | UnexpectedStatus(statusCode: int)
}
